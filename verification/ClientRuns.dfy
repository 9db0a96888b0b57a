/** What every reachable viewer keeps: its bounds, and the order on the wire. */
module ClientRuns {
  import opened Bytes
  import opened Ansi
  import opened Protocol
  import opened OutboundQueues
  import opened Fifo
  import opened ClientSpec

  datatype Act =
    | PutDataAct(at: int, payload: bytes, flags: Flags)
    | PutBytesAct(item: bytes)
    | PutMsgAct(msg: Msg)
    | ShedAct(target: int)
    | SendAct
    | CloseAct

  /** A closed client refuses to queue (the source raises); the writer runs on until it is empty. */
  function Do(c: Client, act: Act): Client {
    match act
    case PutDataAct(at, payload, flags) => if c.closed then c else PutData(c, at, payload, flags)
    case PutBytesAct(item) => if c.closed then c else PutBytes(c, item)
    case PutMsgAct(msg) => if c.closed then c else PutControl(c, msg)
    case ShedAct(target) => ShedOldest(c, target)
    case SendAct => if HasItems(c.q) then SendNext(c).0 else c
    case CloseAct => c.(closed := true)
  }

  function RunActs(c: Client, acts: seq<Act>): Client {
    if acts == [] then c else Do(RunActs(c, acts[..|acts| - 1]), acts[|acts| - 1])
  }

  function Total(frames: seq<Frame>): nat {
    if frames == [] then 0 else |frames[0].payload| + Total(frames[1..])
  }

  lemma {:induction false} TotalSnoc(frames: seq<Frame>, f: Frame)
    ensures Total(frames + [f]) == Total(frames) + |f.payload|
  {
    if frames != [] {
      TotalSnoc(frames[1..], f);
      assert (frames + [f])[1..] == frames[1..] + [f];
    }
  }

  lemma {:induction false} TotalShrinks(frames: seq<Frame>, n: nat)
    requires n <= |frames|
    ensures Total(frames[n..]) <= Total(frames)
    decreases n
  {
    if n > 0 {
      TotalShrinks(frames[1..], n - 1);
      assert frames[1..][n - 1..] == frames[n..];
    }
  }

  /** The byte count is exact, and both queues are bounded. */
  ghost predicate Bounded(c: Client) {
    && c.pending == Total(c.q.binary)
    && (c.maxBytes > 0 ==> c.pending <= c.maxBytes)
    && |c.q.binary| <= Max(1, c.maxPending)
    && |c.q.control| <= MAX_CONTROL_PENDING
  }

  // ---------------------------------------------------------------------
  // Eviction
  // ---------------------------------------------------------------------

  /** `d` is `c` with some frames gone from the head of the queue, and the loss noted. */
  ghost predicate Evicted(c: Client, d: Client) {
    && |d.q.binary| <= |c.q.binary|
    && d == c.(q := Shed(c.q, |c.q.binary| - |d.q.binary|), pending := d.pending,
               droppedBytes := d.droppedBytes, lostFrom := d.lostFrom, lostTo := d.lostTo)
    && (c.pending == Total(c.q.binary) ==> d.pending == Total(d.q.binary))
  }

  lemma {:induction false} DropGroupEvicts(c: Client, anchor: int)
    ensures Evicted(c, DropGroup(c, anchor))
    decreases |c.q.binary|
  {
    if c.q.binary != [] && InGroup(c.q.binary[0], anchor) {
      assert Evicted(c, DropChunk(c, anchor));
      DropGroupEvicts(DropChunk(c, anchor), anchor);
    }
  }

  lemma {:induction false} DropLiveEvicts(c: Client)
    ensures Evicted(c, DropLive(c).0)
    decreases |c.q.binary|
  {
    if c.q.binary != [] {
      assert Evicted(c, DropFrame(c));
      if c.q.binary[0].endsInside {
        DropLiveEvicts(DropFrame(c));
      }
    }
  }

  lemma DropOldestEvicts(c: Client)
    ensures Evicted(c, DropOldest(c).0)
  {
    if c.q.binary != [] {
      if c.q.binary[0].at != None && c.q.binary[0].flags.snapshot {
        DropGroupEvicts(c, c.q.binary[0].at.value);
      } else {
        DropLiveEvicts(c);
      }
    }
  }

  /** Shedding evicts until the new bytes fit or nothing terminal is left. */
  lemma {:induction false} ShedLoopEvicts(c: Client, size: int, shed: bool)
    ensures var d := ShedLoop(c, size, shed).0;
      Evicted(c, d) && (d.q.binary == [] || !Over(d, size))
    decreases |c.q.binary|
  {
    if Over(c, size) {
      var (c1, ok) := DropOldest(c);
      DropShrinks(c);
      DropOldestEvicts(c);
      if ok {
        ShedLoopEvicts(c1, size, true);
      }
    }
  }

  lemma {:induction false} ShedOldestLoopEvicts(c: Client, target: int)
    ensures Evicted(c, ShedOldestLoop(c, target))
    decreases |c.q.binary|
  {
    if c.pending > 0 && target > 0 {
      var (c1, ok) := DropOldest(c);
      DropShrinks(c);
      DropOldestEvicts(c);
      if ok {
        var t := target - (c1.droppedBytes - c.droppedBytes);
        ShedOldestLoopEvicts(c1, t);
      }
    }
  }

  lemma EvictedOrdered(c: Client, d: Client)
    requires Ordered(c.q) && Evicted(c, d)
    ensures Ordered(d.q)
  {
    ShedKeepsOrder(c.q, |c.q.binary| - |d.q.binary|);
  }

  lemma EvictedBounded(c: Client, d: Client)
    requires Bounded(c) && Evicted(c, d)
    ensures Bounded(d)
  {
    TotalShrinks(c.q.binary, |c.q.binary| - |d.q.binary|);
  }

  // ---------------------------------------------------------------------
  // Announcements
  // ---------------------------------------------------------------------

  /** An announcement leaves the terminal queue, its history and the limits alone. */
  ghost predicate SameFrames(c: Client, d: Client) {
    && d.q.binary == c.q.binary && d.q.frames == c.q.frames && d.q.sent == c.q.sent
    && d.pending == c.pending && d.tracker == c.tracker
    && d.version == c.version && d.maxBytes == c.maxBytes && d.maxPending == c.maxPending && d.closed == c.closed
    && (|c.q.control| <= MAX_CONTROL_PENDING ==> |d.q.control| <= MAX_CONTROL_PENDING)
  }

  lemma AnnounceShape(c: Client)
    ensures SameFrames(c, Announce(c))
  {
  }

  lemma AnnounceCounts(c: Client)
    ensures Announce(c).droppedBytes == c.droppedBytes && Announce(c).droppedEvents == c.droppedEvents
  {
  }

  lemma AnnounceOrdered(c: Client)
    requires Ordered(c.q)
    ensures Ordered(Announce(c).q)
  {
    var q1 := c.q;
    if c.version >= 2 && c.lostFrom != None && !c.gapOpen {
      var gap := Gap(c.lostFrom.value, if c.lostTo != None then c.lostTo.value else c.lostFrom.value);
      AddControlKeepsOrder(c.q, gap);
      q1 := AddControl(c.q, gap);
    }
    AddControlKeepsOrder(q1, Desync);
  }

  // ---------------------------------------------------------------------
  // Queueing
  // ---------------------------------------------------------------------

  /** Room made for `size` bytes: the frame that needed it may be queued. */
  ghost predicate HasRoom(c: Client, size: int) {
    && (c.maxBytes > 0 ==> c.pending + size <= c.maxBytes)
    && |c.q.binary| < Max(1, c.maxPending)
  }

  /** Shedding leaves a suffix of the terminal queue, its history and the limits. */
  lemma ShedForShape(c: Client, size: int)
    ensures var d := ShedFor(c, size);
      && d.version == c.version && d.maxBytes == c.maxBytes && d.maxPending == c.maxPending
      && d.closed == c.closed && d.tracker == c.tracker
      && d.q.frames == c.q.frames && d.q.sent == c.q.sent
      && |d.q.binary| <= |c.q.binary| && d.q.binary == c.q.binary[|c.q.binary| - |d.q.binary|..]
  {
    ShedLoopEvicts(c, size, false);
    AnnounceShape(ShedLoop(c, size, false).0.(droppedEvents := c.droppedEvents + 1));
  }

  lemma ShedForOrdered(c: Client, size: int)
    requires Ordered(c.q)
    ensures Ordered(ShedFor(c, size).q)
  {
    hide Ordered;
    var d := ShedLoop(c, size, false).0;
    ShedLoopEvicts(c, size, false);
    EvictedOrdered(c, d);
    AnnounceOrdered(d.(droppedEvents := d.droppedEvents + 1));
  }

  /** The size is one the budget allows at all. */
  predicate Possible(c: Client, size: int) {
    c.maxBytes > 0 ==> size <= c.maxBytes
  }

  lemma RoomWhenDone(c: Client, size: int)
    requires Bounded(c) && Possible(c, size) && (c.q.binary == [] || !Over(c, size))
    ensures HasRoom(c, size)
  {
  }

  /** Shedding keeps the bounds, and makes the room it was called for when the budget allows. */
  lemma ShedForBounded(c: Client, size: int)
    requires Bounded(c)
    ensures Bounded(ShedFor(c, size))
    ensures Possible(c, size) ==> HasRoom(ShedFor(c, size), size)
  {
    var d := ShedLoop(c, size, false).0;
    ShedLoopEvicts(c, size, false);
    EvictedBounded(c, d);
    assert Possible(c, size) == Possible(d, size);
    if Possible(c, size) {
      RoomWhenDone(d, size);
      if !Over(c, size) { RoomWhenDone(c, size); }
    }
    hide ShedLoop, Announce, Total, Bounded, HasRoom, Evicted;
  }

  lemma {:induction false} EnqueueChunksOrdered(c: Client, chunks: seq<bytes>, at: int, flags: Flags)
    requires Ordered(c.q)
    ensures Ordered(EnqueueChunks(c, chunks, at, flags).q)
    decreases |chunks|
  {
    if chunks != [] {
      var f := if |chunks| == 1 then flags.(last := true) else flags;
      AddFrameKeepsOrder(c.q, chunks[0], false, Some(at), f);
      EnqueueChunksOrdered(Enqueue(c, chunks[0], false, Some(at), f), chunks[1..], at, flags);
    }
  }

  lemma {:induction false} EnqueueChunksCounts(c: Client, chunks: seq<bytes>, at: int, flags: Flags)
    ensures var d := EnqueueChunks(c, chunks, at, flags);
      && d == c.(q := d.q) && d.q.control == c.q.control
      && Total(d.q.binary) == Total(c.q.binary) + |Flatten(chunks)|
      && |d.q.binary| == |c.q.binary| + |chunks|
    decreases |chunks|
  {
    if chunks != [] {
      var f := if |chunks| == 1 then flags.(last := true) else flags;
      TotalSnoc(c.q.binary, Frame(c.q.order + 1, chunks[0], false, Some(at), f));
      EnqueueChunksCounts(Enqueue(c, chunks[0], false, Some(at), f), chunks[1..], at, flags);
    }
  }

  /** The chunks of a snapshot are its bytes, each small enough for one frame. */
  lemma {:induction false} SplitIsWhole(payload: bytes)
    ensures Flatten(Split(payload)) == payload
    ensures forall i :: 0 <= i < |Split(payload)| ==> 0 < |Split(payload)[i]| <= MAX_DATA_FRAME
    decreases |payload|
  {
    if |payload| > MAX_DATA_FRAME {
      SplitIsWhole(payload[MAX_DATA_FRAME..]);
    } else if payload != [] {
      assert Split(payload)[1..] == [];
    }
  }

  ghost predicate SameIdentity(c: Client, d: Client) {
    d.version == c.version && d.closed == c.closed && d.maxBytes == c.maxBytes && d.maxPending == c.maxPending
  }

  lemma SnapshotIdentity(c: Client, at: int, payload: bytes, flags: Flags)
    ensures SameIdentity(c, QueueSnapshot(c, at, payload, flags))
  {
    hide ShedFor, EnqueueChunks, Split, Announce;
    ShedForShape(c, |payload|);
    var c1 := ShedFor(c, |payload|);
    EnqueueChunksCounts(c1.(pending := c1.pending + |payload|), Split(payload), at, flags);
  }

  lemma FittingIdentity(c: Client, payload: bytes, at: Option<int>, flags: Flags)
    ensures SameIdentity(c, PutFitting(c, payload, at, flags))
  {
    hide ShedFor, Run;
    ShedForShape(c.(tracker := Run(c.tracker, payload)), |payload|);
  }

  lemma OversizeIdentity(c: Client, payload: bytes, at: Option<int>)
    ensures SameIdentity(c, PutOversize(c, payload, at))
  {
    hide Announce, Run;
    var c1 := c.(tracker := Run(c.tracker, payload), droppedBytes := c.droppedBytes + |payload|,
                 droppedEvents := c.droppedEvents + 1);
    AnnounceShape(c1);
    if at != None {
      AnnounceShape(c1.(lostFrom := if c.lostFrom == None then at else c.lostFrom,
                        lostTo := Some(at.value + |payload|)));
    }
  }

  /** Putting data changes neither what the client is nor whether it is closed. */
  lemma PutDataIdentity(c: Client, at: int, payload: bytes, flags: Flags)
    ensures SameIdentity(c, PutData(c, at, payload, flags))
  {
    hide PutFitting, PutOversize, QueueSnapshot;
    SnapshotIdentity(c, at, payload, flags);
    FittingIdentity(c, payload, None, LIVE);
    FittingIdentity(c, payload, Some(at), flags);
    OversizeIdentity(c, payload, None);
    OversizeIdentity(c, payload, Some(at));
  }

  /** Snapshots: all chunks are queued or none, within the bounds. */
  lemma QueueSnapshotBounded(c: Client, at: int, payload: bytes, flags: Flags)
    requires Bounded(c)
    ensures Bounded(QueueSnapshot(c, at, payload, flags))
  {
    ShedForBounded(c, |payload|);
    var c1 := ShedFor(c, |payload|);
    if SnapshotFits(c1, payload) {
      SplitIsWhole(payload);
      EnqueueChunksCounts(c1.(pending := c1.pending + |payload|), Split(payload), at, flags);
    }
  }

  lemma QueueSnapshotOrdered(c: Client, at: int, payload: bytes, flags: Flags)
    requires Ordered(c.q)
    ensures Ordered(QueueSnapshot(c, at, payload, flags).q)
  {
    hide Ordered;
    ShedForOrdered(c, |payload|);
    var c1 := ShedFor(c, |payload|);
    if SnapshotFits(c1, payload) {
      EnqueueChunksOrdered(c1.(pending := c1.pending + |payload|), Split(payload), at, flags);
    }
  }

  lemma FittingBounded(c: Client, payload: bytes, at: Option<int>, flags: Flags)
    requires Bounded(c) && Fits(c, payload)
    ensures Bounded(PutFitting(c, payload, at, flags))
  {
    var s := Run(c.tracker, payload);
    var c1 := ShedFor(c.(tracker := s), |payload|);
    ShedForBounded(c.(tracker := s), |payload|);
    TotalSnoc(c1.q.binary, Frame(c1.q.order + 1, payload, s != Outside, at, flags));
  }

  lemma FittingOrdered(c: Client, payload: bytes, at: Option<int>, flags: Flags)
    requires Ordered(c.q)
    ensures Ordered(PutFitting(c, payload, at, flags).q)
  {
    hide Ordered;
    var s := Run(c.tracker, payload);
    ShedForOrdered(c.(tracker := s), |payload|);
    AddFrameKeepsOrder(ShedFor(c.(tracker := s), |payload|).q, payload, s != Outside, at, flags);
  }

  lemma OversizeOrdered(c: Client, payload: bytes, at: Option<int>)
    requires Ordered(c.q)
    ensures Ordered(PutOversize(c, payload, at).q)
  {
    hide Ordered;
    var c1 := c.(tracker := Run(c.tracker, payload), droppedBytes := c.droppedBytes + |payload|,
                 droppedEvents := c.droppedEvents + 1);
    match at {
      case None => AnnounceOrdered(c1);
      case Some(from) =>
        AnnounceOrdered(c1.(lostFrom := if c.lostFrom == None then at else c.lostFrom,
                            lostTo := Some(from + |payload|)));
    }
  }

  lemma OversizeBounded(c: Client, payload: bytes, at: Option<int>)
    requires Bounded(c)
    ensures Bounded(PutOversize(c, payload, at))
  {
  }

  lemma SmallActsBounded(c: Client, msg: Msg, target: int)
    requires Bounded(c)
    ensures Bounded(PutControl(c, msg)) && Bounded(ShedOldest(c, target)) && Bounded(c.(closed := true))
  {
    ShedOldestLoopEvicts(c, target);
    EvictedBounded(c, ShedOldestLoop(c, target));
  }

  lemma SendBounded(c: Client)
    requires Bounded(c)
    ensures HasItems(c.q) ==> Bounded(SendNext(c).0)
  {
    hide ToWire;
    if HasItems(c.q) { TotalShrinks(c.q.binary, if BinaryFirst(c.q) then 1 else 0); }
  }

  lemma DoBounded(c: Client, act: Act)
    requires Bounded(c)
    ensures Bounded(Do(c, act))
  {
    hide Bounded;
    match act {
      case PutDataAct(at, payload, flags) =>
        if !c.closed {
          hide QueueSnapshot, PutFitting, PutOversize;
          OversizeBounded(c, payload, None);
          OversizeBounded(c, payload, Some(at));
          if c.version >= 2 && flags.snapshot { QueueSnapshotBounded(c, at, payload, flags); }
          else if Fits(c, payload) {
            FittingBounded(c, payload, None, LIVE);
            FittingBounded(c, payload, Some(at), flags);
          }
        }
      case PutBytesAct(item) =>
        hide PutFitting, PutOversize;
        OversizeBounded(c, item, None);
        if Fits(c, item) { FittingBounded(c, item, None, LIVE); }
      case PutMsgAct(msg) => SmallActsBounded(c, msg, 0);
      case ShedAct(target) => SmallActsBounded(c, Desync, target);
      case SendAct => SendBounded(c);
      case CloseAct => SmallActsBounded(c, Desync, 0);
    }
  }

  lemma PutBytesOrdered(c: Client, item: bytes)
    requires Ordered(c.q)
    ensures Ordered(PutBytes(c, item).q)
  {
    hide Ordered, PutFitting, PutOversize;
    OversizeOrdered(c, item, None);
    FittingOrdered(c, item, None, LIVE);
  }

  lemma PutDataOrdered(c: Client, at: int, payload: bytes, flags: Flags)
    requires Ordered(c.q)
    ensures Ordered(PutData(c, at, payload, flags).q)
  {
    hide Ordered, QueueSnapshot, PutFitting, PutOversize, PutBytes;
    PutBytesOrdered(c, payload);
    OversizeOrdered(c, payload, None);
    OversizeOrdered(c, payload, Some(at));
    QueueSnapshotOrdered(c, at, payload, flags);
    FittingOrdered(c, payload, Some(at), flags);
  }

  lemma DoOrdered(c: Client, act: Act)
    requires Ordered(c.q)
    ensures Ordered(Do(c, act).q)
  {
    hide Ordered, PutData, PutBytes, Announce, ToWire;
    match act {
      case PutDataAct(at, payload, flags) => PutDataOrdered(c, at, payload, flags);
      case PutBytesAct(item) => PutBytesOrdered(c, item);
      case PutMsgAct(msg) => AddControlKeepsOrder(c.q, msg);
      case ShedAct(target) =>
        var d := ShedOldestLoop(c, target);
        ShedOldestLoopEvicts(c, target);
        EvictedOrdered(c, d);
        AnnounceOrdered(d.(droppedEvents := d.droppedEvents + 1));
      case SendAct => if HasItems(c.q) { TakeIsDequeue(c.q); }
      case CloseAct =>
    }
  }

  /**
    Over every run the queues stay bounded, the byte count is exact, and the
    wire is a subsequence of what was queued, in arrival order, although
    terminal frames and control messages wait in different queues.
  */
  lemma {:induction false} EveryClient(version: int, maxPending: int, maxBytes: int, acts: seq<Act>)
    ensures Bounded(RunActs(Fresh(version, maxPending, maxBytes), acts))
    ensures |RunActs(Fresh(version, maxPending, maxBytes), acts).q.control| <= 128
    ensures Ordered(RunActs(Fresh(version, maxPending, maxBytes), acts).q)
    decreases |acts|
  {
    if acts != [] {
      EveryClient(version, maxPending, maxBytes, acts[..|acts| - 1]);
      DoBounded(RunActs(Fresh(version, maxPending, maxBytes), acts[..|acts| - 1]), acts[|acts| - 1]);
      DoOrdered(RunActs(Fresh(version, maxPending, maxBytes), acts[..|acts| - 1]), acts[|acts| - 1]);
    }
  }
}
