/** What becomes of a rendered screen that is offered to a viewer. */
module Screens {
  import opened Bytes
  import opened Protocol
  import opened OutboundQueues
  import opened ClientSpec
  import opened ClientRuns
  import opened Shedding
  import opened RingSpec
  import opened SessionSpec
  import opened SnapshotGroups
  import opened Lossless

  // ---------------------------------------------------------------------
  // When it is queued
  // ---------------------------------------------------------------------

  /** `frames` are the chunks of the screen in order: one anchor, cut nowhere, LAST on the last one alone. */
  ghost predicate AreChunks(frames: seq<Frame>, payload: bytes, at: int, flags: Flags) {
    && |frames| == FramesFor(|payload|, MAX_DATA_FRAME)
    && Payloads(frames) == payload
    && forall i :: 0 <= i < |frames| ==>
         && 0 < |frames[i].payload| <= MAX_DATA_FRAME
         && frames[i].at == Some(at) && !frames[i].endsInside
         && frames[i].flags == flags.(last := flags.last || i == |frames| - 1)
  }

  function Payloads(frames: seq<Frame>): bytes {
    if frames == [] then [] else frames[0].payload + Payloads(frames[1..])
  }

  lemma OneFrameLess(size: nat)
    requires MAX_DATA_FRAME < size
    ensures FramesFor(size, MAX_DATA_FRAME) == FramesFor(size - MAX_DATA_FRAME, MAX_DATA_FRAME) + 1
  {
  }

  lemma OneFrame(size: nat)
    requires 0 < size <= MAX_DATA_FRAME
    ensures FramesFor(size, MAX_DATA_FRAME) == 1
  {
  }

  /** The screen is cut into as few chunks as it takes. */
  lemma {:induction false} SplitIsFew(payload: bytes)
    ensures |Split(payload)| == FramesFor(|payload|, MAX_DATA_FRAME)
    decreases |payload|
  {
    if |payload| > MAX_DATA_FRAME {
      hide FramesFor;
      OneFrameLess(|payload|);
      SplitIsFew(payload[MAX_DATA_FRAME..]);
    } else if payload != [] {
      OneFrame(|payload|);
    }
  }

  lemma {:induction false} PayloadsOf(order: int, chunks: seq<bytes>, at: int, flags: Flags)
    ensures Payloads(ChunkFrames(order, chunks, at, flags)) == Flatten(chunks)
    decreases |chunks|
  {
    if chunks != [] { PayloadsOf(order + 1, chunks[1..], at, flags); }
  }

  lemma ChunksOf(order: int, payload: bytes, at: int, flags: Flags)
    ensures AreChunks(ChunkFrames(order, Split(payload), at, flags), payload, at, flags)
  {
    hide Split, ChunkFrames, FramesFor;
    SplitIsFew(payload);
    SplitIsWhole(payload);
    PayloadsOf(order, Split(payload), at, flags);
    ChunkFrameAt(order, Split(payload), at, flags);
  }

  /** Making room says at most two things: the range lost and the notice. */
  lemma ShedForSaysLittle(c: Client, size: int)
    ensures |ShedFor(c, size).q.control| <= |c.q.control| + 2
  {
    ShedLoopEvicts(c, size, false);
    var d := ShedLoop(c, size, false).0;
    AnnounceSaysLittle(d.(droppedEvents := d.droppedEvents + 1));
    hide ShedLoop, Announce;
  }

  lemma AnnounceSaysLittle(c: Client)
    ensures |Announce(c).q.control| <= |c.q.control| + 2
  {
    var q1 := c.q;
    if c.version >= 2 && c.lostFrom != None && !c.gapOpen {
      RoomIsSuffix(c.q.control);
      var gap := Gap(c.lostFrom.value, if c.lostTo != None then c.lostTo.value else c.lostFrom.value);
      q1 := AddControl(c.q, gap);
    }
    RoomIsSuffix(q1.control);
    hide RoomForControl;
  }

  /** The queue holds the chunks of this screen, and two messages more. */
  predicate FramesFit(c: Client, payload: bytes) {
    QueueLen(c.q) + 2 + FramesFor(|payload|, MAX_DATA_FRAME) <= c.maxPending
  }

  /** What the queue becomes when the screen is taken: what was left of the line, and the chunks. */
  ghost predicate Taken(c: Client, d: Client, payload: bytes, at: int, flags: Flags) {
    && |d.q.binary| >= FramesFor(|payload|, MAX_DATA_FRAME)
    && var n := |d.q.binary| - FramesFor(|payload|, MAX_DATA_FRAME);
    && AreChunks(d.q.binary[n..], payload, at, flags)
    && n <= |c.q.binary| && d.q.binary[..n] == c.q.binary[|c.q.binary| - n..]
  }

  lemma QueuedIsTaken(c: Client, c1: Client, payload: bytes, at: int, flags: Flags)
    requires |c1.q.binary| <= |c.q.binary| && c1.q.binary == c.q.binary[|c.q.binary| - |c1.q.binary|..]
    ensures Taken(c, EnqueueChunks(c1, Split(payload), at, flags), payload, at, flags)
  {
    hide EnqueueChunks, Split, ChunkFrames, FramesFor;
    EnqueueChunksIs(c1, Split(payload), at, flags);
    ChunksOf(c1.q.order, payload, at, flags);
    var d := EnqueueChunks(c1, Split(payload), at, flags);
    var extra := ChunkFrames(c1.q.order, Split(payload), at, flags);
    assert d.q.binary[|c1.q.binary|..] == extra;
    assert d.q.binary[..|c1.q.binary|] == c1.q.binary;
  }

  /**
    A screen that the queue can hold is queued, whatever old output has to make
    room for it, exactly when the byte budget allows it at all; if not, the line
    is emptied and nothing is queued.
  */
  lemma SnapshotIsTaken(c: Client, at: int, payload: bytes, flags: Flags)
    requires Bounded(c) && c.version >= 2 && flags.snapshot && payload != [] && FramesFit(c, payload)
    ensures var d := PutData(c, at, payload, flags);
      if c.maxBytes <= 0 || |payload| <= c.maxBytes then Taken(c, d, payload, at, flags)
      else d.q.binary == [] && d.q.frames == c.q.frames
  {
    hide ShedFor, FramesFor, Split, EnqueueChunks, Bounded, Taken;
    var c1 := ShedFor(c, |payload|);
    ShedForShape(c, |payload|);
    ShedForBounded(c, |payload|);
    ShedForSaysLittle(c, |payload|);
    SplitIsFew(payload);
    if c.maxBytes <= 0 || |payload| <= c.maxBytes {
      QueuedIsTaken(c, c1.(pending := c1.pending + |payload|), payload, at, flags);
    } else {
      OversizeEmpties(c, |payload|);
    }
  }

  lemma OversizeEmpties(c: Client, size: int)
    requires Bounded(c) && 0 < c.maxBytes < size
    ensures ShedFor(c, size).q.binary == [] && ShedFor(c, size).pending == 0
  {
    ShedLoopEvicts(c, size, false);
    var d := ShedLoop(c, size, false).0;
    EvictedBounded(c, d);
    assert Over(d, size);
    AnnounceShape(d.(droppedEvents := d.droppedEvents + 1));
    hide ShedLoop, Announce;
  }

  // ---------------------------------------------------------------------
  // When it stands for the whole answer
  // ---------------------------------------------------------------------

  /** The chunks fit beside what is queued. */
  predicate FitsBeside(c: Client, payload: bytes) {
    && (c.maxBytes > 0 ==> c.pending + |payload| <= c.maxBytes)
    && QueueLen(c.q) + FramesFor(|payload|, MAX_DATA_FRAME) <= c.maxPending
  }

  /** The chunks fit once the terminal queue is empty. */
  predicate FitsAlone(c: Client, payload: bytes) {
    && (c.maxBytes > 0 ==> |payload| <= c.maxBytes)
    && |c.q.control| + FramesFor(|payload|, MAX_DATA_FRAME) <= c.maxPending
  }

  lemma FitsNotOver(c: Client, payload: bytes)
    requires payload != [] && FitsBeside(c, payload)
    ensures !Over(c, |payload|) && SnapshotFits(c, payload)
  {
    SplitIsFew(payload);
    hide Split;
  }

  lemma SnapshotCounts(c: Client, at: int, payload: bytes, flags: Flags)
    ensures var c1 := ShedFor(c, |payload|);
      QueueSnapshot(c, at, payload, flags).droppedEvents
        == c1.droppedEvents + if SnapshotFits(c1, payload) then 0 else 1
  {
    var c1 := ShedFor(c, |payload|);
    hide ShedFor, EnqueueChunks, Split;
    EnqueueChunksCounts(c1.(pending := c1.pending + |payload|), Split(payload), at, flags);
  }

  /** What is left when the terminal queue has been emptied without a word. */
  ghost predicate EmptiedQuietly(c: Client, d: Client) {
    && d.droppedEvents == c.droppedEvents && d.q.binary == [] && d.q.control == c.q.control
    && d.pending == 0 && d.maxBytes == c.maxBytes && d.maxPending == c.maxPending
  }

  lemma NothingLeft(c: Client, d: Client)
    requires Bounded(c) && Evicted(c, d) && d.q.binary == []
    ensures EmptiedQuietly(c, d)
  {
  }

  lemma QuietRound(c: Client, size: int)
    requires Bounded(c) && Over(c, size) && !DropOldest(c).1
    ensures EmptiedQuietly(c, ShedFor(c, size))
  {
    hide EmptiedQuietly, DropLive, DropGroup, Bounded, Evicted;
    DropShrinks(c);
    DropOldestEvicts(c);
    NothingLeft(c, DropOldest(c).0);
  }

  lemma CountedRound(c: Client, size: int)
    requires Over(c, size) && DropOldest(c).1
    ensures ShedFor(c, size).droppedEvents == c.droppedEvents + 1
  {
    hide DropOldest, Announce;
    var c1 := DropOldest(c).0;
    DropShrinks(c);
    DropOldestEvicts(c);
    LaterRoundsAreCounted(c1, size);
    ShedLoopEvicts(c1, size, true);
    var d := ShedLoop(c, size, false).0;
    assert ShedLoop(c, size, false) == ShedLoop(c1, size, true);
    AnnounceCounts(d.(droppedEvents := d.droppedEvents + 1));
  }

  /** A round of shedding stays quiet exactly when every frame in the line ends inside a sequence. */
  lemma QuietIfAllInside(c: Client)
    requires SnapshotsEndOutside(c.q.binary)
    ensures DropOldest(c).1 <==> !AllInside(c.q.binary)
  {
    DropLiveStops(c);
    hide DropLive, DropGroup;
  }

  /**
    A screen stands for the whole answer exactly when its chunks fit beside what
    is queued, or when the whole line ends inside a sequence, goes unreported, and
    the chunks fit alone.
  */
  lemma OfferIsApplied(c: Client, end: int, payload: bytes)
    requires Bounded(c) && c.version >= 2 && payload != [] && SnapshotsEndOutside(c.q.binary)
    ensures OfferSnapshot(c, end, Some(payload)).1 <==>
      || FitsBeside(c, payload)
      || (Over(c, |payload|) && AllInside(c.q.binary) && FitsAlone(c, payload))
  {
    hide FramesFor, Split, AllInside, DropOldest, SnapshotsEndOutside, QueueSnapshot, Bounded;
    SplitIsFew(payload);
    SnapshotCounts(c, end, payload, SNAPSHOT);
    assert OfferSnapshot(c, end, Some(payload)).1
      <==> QueueSnapshot(c, end, payload, SNAPSHOT).droppedEvents == c.droppedEvents;
    if !Over(c, |payload|) {
      assert ShedFor(c, |payload|) == c;
    } else {
      hide ShedFor;
      if FitsBeside(c, payload) { FitsNotOver(c, payload); }
      QuietIfAllInside(c);
      if DropOldest(c).1 {
        CountedRound(c, |payload|);
      } else {
        QuietRound(c, |payload|);
      }
    }
  }

  /**
    Attaching a fresh viewer to a session that has a screen within its bounds:
    the line is the screen and the message that says so.
  */
  lemma FittingScreen(r: Ring, maxPending: int, budget: int, generation: int, last: Option<int>,
                      theirs: Option<int>, screen: bytes)
    requires screen != [] && !ResumeOk(r, generation, last, theirs)
    requires (budget > 0 ==> |screen| <= budget) && FramesFor(|screen|, MAX_DATA_FRAME) <= maxPending
    ensures
      var d := AttachV2(Fresh(2, maxPending, budget), r, generation, last, theirs, Some(screen));
      && AreChunks(d.q.binary, screen, r.endSeq, SNAPSHOT)
      && d.droppedBytes == 0 && d.droppedEvents == 0
      && |d.q.control| == 1
      && d.q.control[0].msg == Attached(generation, r.endSeq, Base(r), true, true, false)
  {
    hide FramesFor, Split, EnqueueChunks, ChunkFrames, AreChunks;
    var c := Fresh(2, maxPending, budget);
    assert FitsBeside(c, screen);
    FitsNotOver(c, screen);
    var c1 := c.(pending := |screen|);
    EnqueueChunksCounts(c1, Split(screen), r.endSeq, SNAPSHOT);
    EnqueueChunksIs(c1, Split(screen), r.endSeq, SNAPSHOT);
    ChunksOf(0, screen, r.endSeq, SNAPSHOT);
    var d := EnqueueChunks(c1, Split(screen), r.endSeq, SNAPSHOT);
    assert OfferSnapshot(c, r.endSeq, Some(screen)) == (d, true);
    assert [] + ChunkFrames(0, Split(screen), r.endSeq, SNAPSHOT) == ChunkFrames(0, Split(screen), r.endSeq, SNAPSHOT);
  }

  /**
    A repair offers a viewer a screen that is queued whole, but pushes one old
    frame out: the replay follows all the same, its clear behind the screen.
  */
  lemma TakenButNotApplied(c: Client, end: int, payload: bytes)
    requires Bounded(c) && c.version >= 2 && payload != [] && SnapshotsEndOutside(c.q.binary)
    requires FramesFit(c, payload) && (c.maxBytes > 0 ==> |payload| <= c.maxBytes)
    requires Over(c, |payload|) && !AllInside(c.q.binary)
    ensures var (d, applied) := OfferSnapshot(c, end, Some(payload));
      !applied && Taken(c, d, payload, end, SNAPSHOT)
  {
    hide FramesFor, AllInside, SnapshotsEndOutside, Bounded, Taken, PutData;
    SnapshotIsTaken(c, end, payload, SNAPSHOT);
    OfferIsApplied(c, end, payload);
    if FitsBeside(c, payload) { FitsNotOver(c, payload); }
  }
}
