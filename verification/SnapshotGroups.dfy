/**
  A snapshot is one repaint cut into chunks: its LAST chunk must not reach the
  viewer unless every chunk before it did.
*/
module SnapshotGroups {
  import opened Bytes
  import opened Ansi
  import opened Protocol
  import opened OutboundQueues
  import opened Fifo
  import opened ClientSpec
  import opened ClientRuns
  import opened Shedding

  /** A chunk with more of its snapshot to come. */
  predicate IsPart(f: Frame) {
    f.flags.snapshot && !f.flags.last
  }

  /** Every such chunk is directly followed by another chunk with the same anchor. */
  ghost predicate Grouped(frames: seq<Frame>) {
    forall i :: 0 <= i < |frames| && IsPart(frames[i]) ==>
      i + 1 < |frames| && frames[i + 1].flags.snapshot && frames[i + 1].at == frames[i].at
  }

  /** `k` and `last` are chunks of one snapshot, `last` its final one. */
  ghost predicate InOneGroup(frames: seq<Frame>, k: int, last: int) {
    && 0 <= k <= last < |frames|
    && frames[last].flags.snapshot && frames[last].flags.last
    && forall j :: k <= j < last ==> IsPart(frames[j])
  }

  ghost predicate IsSent(q: Queues, i: int)
    requires 0 <= i < |q.frames|
  {
    q.frames[i].order in q.sent
  }

  /** Queued or sent: not shed. */
  ghost predicate Kept(q: Queues, i: int)
    requires 0 <= i < |q.frames|
  {
    i >= Taken(q) || IsSent(q, i)
  }

  /** No snapshot whose final chunk survives has lost an earlier one. */
  ghost predicate Whole(q: Queues) {
    forall k, last :: InOneGroup(q.frames, k, last) && Kept(q, last) ==> Kept(q, k)
  }

  // ---------------------------------------------------------------------
  // Queue steps
  // ---------------------------------------------------------------------

  /** Sending sheds nothing: a frame that leaves the queue is marked as sent. */
  lemma TakeKeepsKept(q: Queues)
    requires Ordered(q) && HasItems(q)
    ensures forall i :: 0 <= i < |q.frames| ==> (Kept(Take(q), i) <==> Kept(q, i))
  {
    var d := Take(q);
    var o := d.sent[|q.sent|];
    if BinaryFirst(q) { assert q.frames[Taken(q)] == q.binary[0]; }
    else { assert q.controls[TakenControls(q)] == q.control[0]; }
    forall i | 0 <= i < |q.frames| ensures Kept(d, i) <==> Kept(q, i) {
      assert IsSent(d, i) <==> IsSent(q, i) || q.frames[i].order == o;
      if q.frames[i].order == o {
        assert BinaryFirst(q);
        assert i == Taken(q);
      }
    }
  }

  lemma TakeKeepsWhole(q: Queues)
    requires Ordered(q) && HasItems(q) && Whole(q)
    ensures Whole(Take(q))
  {
    var d := Take(q);
    TakeKeepsKept(q);
    hide Ordered;
    forall k, last | InOneGroup(d.frames, k, last) && Kept(d, last) ensures Kept(d, k) {
      assert InOneGroup(q.frames, k, last) && Kept(q, last);
    }
  }

  /** A chunk that is not the last has a last one behind it. */
  lemma {:induction false} GroupEnds(frames: seq<Frame>, k: nat) returns (last: nat)
    requires Grouped(frames) && k < |frames| && frames[k].flags.snapshot
    ensures k <= last && InOneGroup(frames, k, last)
    decreases |frames| - k
  {
    if IsPart(frames[k]) {
      last := GroupEnds(frames, k + 1);
      assert forall j :: k <= j < last ==> j == k || IsPart(frames[j]);
    } else {
      last := k;
    }
  }

  /** An eviction tears a snapshot exactly when the last frame to go is a chunk with more to come. */
  lemma ShedKeepsWhole(q: Queues, n: nat)
    requires Ordered(q) && Grouped(q.frames) && Whole(q) && n <= |q.binary|
    ensures Whole(Shed(q, n)) <==> n == 0 || !IsPart(q.binary[n - 1])
  {
    var d := Shed(q, n);
    var t := Taken(q);
    if n == 0 {
      assert d == q;
    } else if IsPart(q.binary[n - 1]) {
      assert q.frames[t + n - 1] == q.binary[n - 1];
      var last := GroupEnds(q.frames, t + n - 1);
      assert !Kept(d, t + n - 1) && Kept(d, last) && InOneGroup(d.frames, t + n - 1, last);
    } else {
      assert !IsPart(q.frames[t + n - 1]);
      forall k, last | InOneGroup(d.frames, k, last) && Kept(d, last) ensures Kept(d, k) {
        assert InOneGroup(q.frames, k, last) && Kept(q, last) && Kept(q, k);
      }
    }
  }

  /** Frames queued behind a complete history start no group that is torn. */
  lemma AppendKeepsWhole(q: Queues, d: Queues, extra: seq<Frame>)
    requires Suffixes(q) && Grouped(q.frames) && Whole(q)
    requires d.frames == q.frames + extra && d.binary == q.binary + extra && d.sent == q.sent
    ensures Whole(d)
  {
    assert forall j :: 0 <= j < |q.frames| ==> d.frames[j] == q.frames[j];
    assert q.frames != [] ==> !IsPart(d.frames[|q.frames| - 1]);
    forall k, last | InOneGroup(d.frames, k, last) && Kept(d, last) ensures Kept(d, k) {
      if k < |q.frames| {
        assert last < |q.frames|;
        assert forall j :: k <= j < last ==> IsPart(q.frames[j]) == IsPart(d.frames[j]);
        assert InOneGroup(q.frames, k, last) && Kept(q, last);
      }
    }
  }

  // ---------------------------------------------------------------------
  // The eviction of one frame or group
  // ---------------------------------------------------------------------

  /** The live frames at the head all end inside a sequence and run into the first chunk of a snapshot. */
  ghost predicate WalksIntoGroup(q: Queues) {
    exists i :: 0 < i < |q.binary| && IsPart(q.binary[i]) && forall j :: 0 <= j < i ==> q.binary[j].endsInside
  }

  ghost predicate Shapely(q: Queues) {
    Ordered(q) && Grouped(q.frames) && SnapshotsEndOutside(q.frames)
  }

  /** `_drop_oldest_binary` tears a snapshot exactly when it walks into one. */
  lemma DropTearsIffItWalks(c: Client)
    requires Shapely(c.q) && Whole(c.q)
    ensures Whole(DropOldest(c).0.q) <==> !WalksIntoGroup(c.q)
  {
    hide Ordered, Whole, Grouped, DropGroup, DropLive;
    var d := DropOldest(c).0;
    var n := Gone(c, d);
    DropOldestEvicts(c);
    assert d.q == Shed(c.q, n);
    ShedKeepsWhole(c.q, n);
    if c.q.binary != [] {
      HeadsAreFrames(c.q);
      if c.q.binary[0].flags.snapshot {
        GroupGoesWhole(c, c.q.binary[0].at.value);
      } else {
        DropLiveStops(c);
      }
    }
  }

  lemma HeadsAreFrames(q: Queues)
    requires Ordered(q) && SnapshotsEndOutside(q.frames)
    ensures SnapshotsEndOutside(q.binary)
  {
    assert forall i :: 0 <= i < |q.binary| ==> q.binary[i] == q.frames[Taken(q) + i];
  }

  lemma GroupGoesWhole(c: Client, anchor: int)
    requires Ordered(c.q) && Grouped(c.q.frames)
    requires c.q.binary != [] && InGroup(c.q.binary[0], anchor)
    ensures var n := Gone(c, DropGroup(c, anchor));
      0 < n <= |c.q.binary| && !IsPart(c.q.binary[n - 1])
  {
    hide DropGroup;
    DropGroupStops(c, anchor);
    var n := Gone(c, DropGroup(c, anchor));
    var t := Taken(c.q);
    assert forall i :: 0 <= i < |c.q.binary| ==> c.q.binary[i] == c.q.frames[t + i];
    assert n > 0;
    assert n < |c.q.binary| ==> c.q.binary[n] == c.q.frames[t + n - 1 + 1];
    assert !IsPart(c.q.frames[t + n - 1]);
  }

  // ---------------------------------------------------------------------
  // Runs
  // ---------------------------------------------------------------------

  /** No snapshot of several chunks was ever queued directly behind a frame ending inside a sequence. */
  ghost predicate Spaced(frames: seq<Frame>) {
    forall i :: 0 <= i && i + 1 < |frames| && frames[i].endsInside ==> !IsPart(frames[i + 1])
  }

  lemma SpacedNeverWalks(q: Queues)
    requires Suffixes(q) && Spaced(q.frames)
    ensures !WalksIntoGroup(q)
  {
    forall i | 0 < i < |q.binary| && forall j :: 0 <= j < i ==> q.binary[j].endsInside
      ensures !IsPart(q.binary[i])
    {
      assert q.binary[i - 1] == q.frames[Taken(q) + i - 1] && q.binary[i] == q.frames[Taken(q) + i - 1 + 1];
    }
  }

  /** The invariant of the runs. */
  ghost predicate Atomic(q: Queues) {
    Shapely(q) && (Spaced(q.frames) ==> Whole(q))
  }

  lemma DropKeepsAtomic(c: Client)
    requires Atomic(c.q)
    ensures Atomic(DropOldest(c).0.q)
  {
    hide Whole, DropGroup, DropLive, Spaced, Grouped, SnapshotsEndOutside, WalksIntoGroup;
    var d := DropOldest(c).0;
    DropOldestEvicts(c);
    EvictedOrdered(c, d);
    if Spaced(c.q.frames) {
      DropTearsIffItWalks(c);
      SpacedNeverWalks(c.q);
    }
  }

  lemma {:induction false} ShedLoopAtomic(c: Client, size: int, shed: bool)
    requires Atomic(c.q)
    ensures Atomic(ShedLoop(c, size, shed).0.q)
    decreases |c.q.binary|
  {
    hide Atomic, DropOldest;
    if Over(c, size) {
      DropShrinks(c);
      DropKeepsAtomic(c);
      if DropOldest(c).1 { ShedLoopAtomic(DropOldest(c).0, size, true); }
    }
  }

  lemma {:induction false} ShedOldestLoopAtomic(c: Client, target: int)
    requires Atomic(c.q)
    ensures Atomic(ShedOldestLoop(c, target).q)
    decreases |c.q.binary|
  {
    hide Atomic, DropOldest;
    if c.pending > 0 && target > 0 {
      DropShrinks(c);
      DropKeepsAtomic(c);
      var (c1, ok) := DropOldest(c);
      if ok { ShedOldestLoopAtomic(c1, target - (c1.droppedBytes - c.droppedBytes)); }
    }
  }

  /** Control messages change neither frames nor their fate. */
  lemma SameFramesAtomic(q: Queues, d: Queues)
    requires Atomic(q) && Ordered(d)
    requires d.binary == q.binary && d.frames == q.frames && d.sent == q.sent
    ensures Atomic(d)
  {
    hide Ordered, Grouped;
    if Spaced(q.frames) {
      assert forall i :: 0 <= i < |q.frames| && Kept(q, i) ==> Kept(d, i);
      forall k, last | InOneGroup(d.frames, k, last) && Kept(d, last) ensures Kept(d, k) {
        assert IsSent(d, last) ==> IsSent(q, last);
        assert InOneGroup(q.frames, k, last) && Kept(q, last);
      }
    }
  }

  lemma AnnounceAtomic(c: Client)
    requires Atomic(c.q)
    ensures Atomic(Announce(c).q)
  {
    hide Atomic, Announce;
    AtomicIsOrdered(c.q);
    AnnounceShape(c);
    AnnounceOrdered(c);
    SameFramesAtomic(c.q, Announce(c).q);
  }

  lemma AtomicIsOrdered(q: Queues)
    requires Atomic(q)
    ensures Ordered(q)
  {
  }

  lemma ShedForAtomic(c: Client, size: int)
    requires Atomic(c.q)
    ensures Atomic(ShedFor(c, size).q)
  {
    hide Atomic, ShedLoop, Announce;
    var d := ShedLoop(c, size, false).0;
    ShedLoopAtomic(c, size, false);
    AnnounceAtomic(d.(droppedEvents := d.droppedEvents + 1));
  }

  // ---------------------------------------------------------------------
  // Puts
  // ---------------------------------------------------------------------

  /** One more frame, or the chunks of one more snapshot. */
  ghost predicate OneUnit(extra: seq<Frame>) {
    && (forall i :: 0 <= i < |extra| && extra[i].flags.snapshot ==>
          extra[i].at == extra[0].at != None && !extra[i].endsInside)
    && (forall i :: 0 <= i < |extra| && IsPart(extra[i]) ==> i + 1 < |extra| && extra[i + 1].flags.snapshot)
  }

  lemma UnitKeepsAtomic(q: Queues, d: Queues, extra: seq<Frame>)
    requires Atomic(q) && Ordered(d) && OneUnit(extra)
    requires d.frames == q.frames + extra && d.binary == q.binary + extra && d.sent == q.sent
    ensures Atomic(d)
  {
    hide Whole;
    assert forall i :: 0 <= i < |q.frames| ==> d.frames[i] == q.frames[i];
    assert forall i :: |q.frames| <= i < |d.frames| ==> d.frames[i] == extra[i - |q.frames|];
    forall i | 0 <= i < |d.frames| && IsPart(d.frames[i])
      ensures i + 1 < |d.frames| && d.frames[i + 1].flags.snapshot && d.frames[i + 1].at == d.frames[i].at
    {
      if i < |q.frames| { assert IsPart(q.frames[i]); } else { assert IsPart(extra[i - |q.frames|]); }
    }
    if Spaced(d.frames) {
      assert Spaced(q.frames) by {
        forall i | 0 <= i && i + 1 < |q.frames| && q.frames[i].endsInside ensures !IsPart(q.frames[i + 1]) {
          assert d.frames[i].endsInside && d.frames[i + 1] == q.frames[i + 1];
        }
      }
      AppendKeepsWhole(q, d, extra);
    }
  }

  lemma FittingAtomic(c: Client, payload: bytes, at: Option<int>, flags: Flags)
    requires Atomic(c.q) && !flags.snapshot
    ensures Atomic(PutFitting(c, payload, at, flags).q)
  {
    hide Atomic, ShedFor, Ordered;
    var s := Run(c.tracker, payload);
    ShedForAtomic(c.(tracker := s), |payload|);
    var q := ShedFor(c.(tracker := s), |payload|).q;
    AtomicIsOrdered(q);
    AddFrameKeepsOrder(q, payload, s != Outside, at, flags);
    UnitKeepsAtomic(q, AddFrame(q, payload, s != Outside, at, flags),
                    [Frame(q.order + 1, payload, s != Outside, at, flags)]);
  }

  /** The frames that the chunks of one snapshot become. */
  function ChunkFrames(order: int, chunks: seq<bytes>, at: int, flags: Flags): seq<Frame>
    decreases |chunks|
  {
    if chunks == [] then []
    else [Frame(order + 1, chunks[0], false, Some(at), if |chunks| == 1 then flags.(last := true) else flags)]
         + ChunkFrames(order + 1, chunks[1..], at, flags)
  }

  lemma {:induction false} EnqueueChunksIs(c: Client, chunks: seq<bytes>, at: int, flags: Flags)
    ensures var d := EnqueueChunks(c, chunks, at, flags);
      var extra := ChunkFrames(c.q.order, chunks, at, flags);
      d.q.frames == c.q.frames + extra && d.q.binary == c.q.binary + extra && d.q.sent == c.q.sent
    decreases |chunks|
  {
    if chunks == [] {
      assert c.q.frames + [] == c.q.frames && c.q.binary + [] == c.q.binary;
    } else {
      var first := Frame(c.q.order + 1, chunks[0], false, Some(at), if |chunks| == 1 then flags.(last := true)
          else flags);
      var rest := ChunkFrames(c.q.order + 1, chunks[1..], at, flags);
      EnqueueChunksIs(Enqueue(c, chunks[0], false, Some(at), first.flags), chunks[1..], at, flags);
      assert c.q.frames + [first] + rest == c.q.frames + ([first] + rest);
      assert c.q.binary + [first] + rest == c.q.binary + ([first] + rest);
    }
  }

  lemma {:induction false} ChunkFrameAt(order: int, chunks: seq<bytes>, at: int, flags: Flags)
    ensures |ChunkFrames(order, chunks, at, flags)| == |chunks|
    ensures forall i :: 0 <= i < |chunks| ==>
      ChunkFrames(order, chunks, at, flags)[i]
        == Frame(order + 1 + i, chunks[i], false, Some(at), if i == |chunks| - 1 then flags.(last := true) else flags)
    decreases |chunks|
  {
    if chunks != [] { ChunkFrameAt(order + 1, chunks[1..], at, flags); }
  }

  lemma ChunksAreOneUnit(order: int, chunks: seq<bytes>, at: int, flags: Flags)
    requires flags.snapshot
    ensures OneUnit(ChunkFrames(order, chunks, at, flags))
  {
    ChunkFrameAt(order, chunks, at, flags);
    hide ChunkFrames;
  }

  lemma SnapshotAtomic(c: Client, at: int, payload: bytes, flags: Flags)
    requires Atomic(c.q) && flags.snapshot
    ensures Atomic(QueueSnapshot(c, at, payload, flags).q)
  {
    hide Atomic, ShedFor, Ordered, EnqueueChunks, Split;
    ShedForAtomic(c, |payload|);
    var c1 := ShedFor(c, |payload|);
    if SnapshotFits(c1, payload) {
      var c2 := c1.(pending := c1.pending + |payload|);
      AtomicIsOrdered(c2.q);
      EnqueueChunksOrdered(c2, Split(payload), at, flags);
      hide ChunkFrames;
      EnqueueChunksIs(c2, Split(payload), at, flags);
      ChunksAreOneUnit(c2.q.order, Split(payload), at, flags);
      UnitKeepsAtomic(c2.q, EnqueueChunks(c2, Split(payload), at, flags).q,
                      ChunkFrames(c2.q.order, Split(payload), at, flags));
    }
  }

  lemma OversizeAtomic(c: Client, payload: bytes, at: Option<int>)
    requires Atomic(c.q)
    ensures Atomic(PutOversize(c, payload, at).q)
  {
    hide Atomic, Announce;
    var c1 := c.(tracker := Run(c.tracker, payload), droppedBytes := c.droppedBytes + |payload|,
                 droppedEvents := c.droppedEvents + 1);
    match at {
      case None => AnnounceAtomic(c1);
      case Some(from) =>
        AnnounceAtomic(c1.(lostFrom := if c.lostFrom == None then at else c.lostFrom,
                           lostTo := Some(from + |payload|)));
    }
  }

  lemma TakeAtomic(q: Queues)
    requires Atomic(q) && HasItems(q)
    ensures Atomic(Take(q))
  {
    TakeIsDequeue(q);
    hide Ordered, Whole, Grouped, SnapshotsEndOutside, Spaced;
    if Spaced(q.frames) { TakeKeepsWhole(q); }
  }

  lemma DoAtomic(c: Client, act: Act)
    requires Atomic(c.q)
    ensures Atomic(Do(c, act).q)
  {
    hide Atomic, PutFitting, PutOversize, QueueSnapshot, ShedOldestLoop, Announce, ToWire;
    match act {
      case PutDataAct(at, payload, flags) =>
        OversizeAtomic(c, payload, None);
        OversizeAtomic(c, payload, Some(at));
        FittingAtomic(c, payload, None, LIVE);
        if flags.snapshot { SnapshotAtomic(c, at, payload, flags); }
            else { FittingAtomic(c, payload, Some(at), flags); }
      case PutBytesAct(item) =>
        OversizeAtomic(c, item, None);
        FittingAtomic(c, item, None, LIVE);
      case PutMsgAct(msg) =>
        AtomicIsOrdered(c.q);
        AddControlKeepsOrder(c.q, msg);
        SameFramesAtomic(c.q, AddControl(c.q, msg));
      case ShedAct(target) =>
        var d := ShedOldestLoop(c, target);
        ShedOldestLoopAtomic(c, target);
        AnnounceAtomic(d.(droppedEvents := d.droppedEvents + 1));
      case SendAct => if HasItems(c.q) { TakeAtomic(c.q); }
      case CloseAct =>
    }
  }

  lemma {:induction false} EveryAtomic(version: int, maxPending: int, maxBytes: int, acts: seq<Act>)
    ensures Atomic(RunActs(Fresh(version, maxPending, maxBytes), acts).q)
    decreases |acts|
  {
    hide Do;
    if acts != [] {
      EveryAtomic(version, maxPending, maxBytes, acts[..|acts| - 1]);
      hide Atomic;
      DoAtomic(RunActs(Fresh(version, maxPending, maxBytes), acts[..|acts| - 1]), acts[|acts| - 1]);
    }
  }

  /**
    Over every run in which no snapshot of several chunks is queued directly
    behind a frame ending inside a sequence, a final chunk is sent only if every
    earlier chunk of its snapshot was sent, and before it.
  */
  lemma SnapshotsAreAtomic(version: int, maxPending: int, maxBytes: int, acts: seq<Act>, k: nat, last: nat)
    requires Spaced(RunActs(Fresh(version, maxPending, maxBytes), acts).q.frames)
    requires InOneGroup(RunActs(Fresh(version, maxPending, maxBytes), acts).q.frames, k, last)
    requires IsSent(RunActs(Fresh(version, maxPending, maxBytes), acts).q, last)
    ensures var q := RunActs(Fresh(version, maxPending, maxBytes), acts).q;
      IsSent(q, k) && (k < last ==> q.frames[k].order < q.frames[last].order)
  {
    hide RunActs;
    EveryAtomic(version, maxPending, maxBytes, acts);
    var q := RunActs(Fresh(version, maxPending, maxBytes), acts).q;
    assert Kept(q, last) && Kept(q, k);
  }
}
