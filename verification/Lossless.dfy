/** Puts that lose nothing: what they add to the line, and when they are sure to lose nothing. */
module Lossless {
  import opened Bytes
  import opened Ansi
  import opened Protocol
  import opened OutboundQueues
  import opened ClientSpec
  import opened ClientRuns
  import opened RingSpec
  import opened Replay
  import opened SessionSpec

  ghost predicate NoneEmpty(frames: seq<Frame>) {
    forall i :: 0 <= i < |frames| ==> |frames[i].payload| > 0
  }

  // ---------------------------------------------------------------------
  // A loss shows in the byte count
  // ---------------------------------------------------------------------

  lemma {:induction false} DropGroupCounts(c: Client, anchor: int)
    ensures DropGroup(c, anchor).droppedBytes >= c.droppedBytes
    decreases |c.q.binary|
  {
    if c.q.binary != [] && InGroup(c.q.binary[0], anchor) { DropGroupCounts(DropChunk(c, anchor), anchor); }
  }

  lemma {:induction false} DropLiveCounts(c: Client)
    ensures DropLive(c).0.droppedBytes >= c.droppedBytes
    decreases |c.q.binary|
  {
    if c.q.binary != [] && c.q.binary[0].endsInside { DropLiveCounts(DropFrame(c)); }
  }

  lemma DropOldestCounts(c: Client)
    ensures DropOldest(c).0.droppedBytes >= c.droppedBytes
    ensures c.q.binary != [] && |c.q.binary[0].payload| > 0 ==> DropOldest(c).0.droppedBytes > c.droppedBytes
    ensures c.q.binary == [] ==> DropOldest(c) == (c, false)
  {
    if c.q.binary != [] {
      if c.q.binary[0].at != None && c.q.binary[0].flags.snapshot {
        DropGroupCounts(DropChunk(c, c.q.binary[0].at.value), c.q.binary[0].at.value);
      } else if c.q.binary[0].endsInside {
        DropLiveCounts(DropFrame(c));
      }
    }
  }

  lemma {:induction false} ShedLoopCounts(c: Client, size: int, shed: bool)
    ensures var (d, s) := ShedLoop(c, size, shed);
      && d.droppedBytes >= c.droppedBytes
      && (NoneEmpty(c.q.binary) && d.droppedBytes == c.droppedBytes ==> d == c && s == shed)
    decreases |c.q.binary|
  {
    hide DropOldest;
    if Over(c, size) {
      DropShrinks(c);
      DropOldestCounts(c);
      if DropOldest(c).1 { ShedLoopCounts(DropOldest(c).0, size, true); }
    }
  }

  lemma ShedForCounts(c: Client, size: int)
    ensures ShedFor(c, size).droppedBytes >= c.droppedBytes
    ensures NoneEmpty(c.q.binary) && ShedFor(c, size).droppedBytes == c.droppedBytes ==> ShedFor(c, size) == c
  {
    hide ShedLoop, Announce;
    var d := ShedLoop(c, size, false).0;
    ShedLoopCounts(c, size, false);
    AnnounceCounts(d.(droppedEvents := d.droppedEvents + 1));
  }

  /** Bytes dropped are never un-dropped. */
  lemma PutDataCounts(c: Client, at: int, payload: bytes, flags: Flags)
    requires c.version >= 2
    ensures PutData(c, at, payload, flags).droppedBytes >= c.droppedBytes
  {
    hide ShedFor, Announce, EnqueueChunks, Split;
    if flags.snapshot {
      ShedForCounts(c, |payload|);
      var c1 := ShedFor(c, |payload|);
      EnqueueChunksCounts(c1.(pending := c1.pending + |payload|), Split(payload), at, flags);
    } else {
      var c0 := c.(tracker := Run(c.tracker, payload));
      ShedForCounts(c0, |payload|);
      var c1 := c0.(droppedBytes := c.droppedBytes + |payload|, droppedEvents := c.droppedEvents + 1);
      AnnounceCounts(c1);
      AnnounceCounts(c1.(lostFrom := if c.lostFrom == None then Some(at) else c.lostFrom,
                         lostTo := Some(at + |payload|)));
    }
  }

  /** `d` is `c` with one frame more at the end of the line. */
  ghost predicate Queued(c: Client, d: Client, at: int, payload: bytes, flags: Flags) {
    var s := Run(c.tracker, payload);
    d == c.(tracker := s, pending := c.pending + |payload|, q := AddFrame(c.q, payload, s != Outside, Some(at), flags))
  }

  /** A put that counts no loss queued the frame and did nothing else. */
  lemma NoLossQueues(c: Client, at: int, payload: bytes, flags: Flags)
    requires c.version >= 2 && !flags.snapshot && payload != [] && NoneEmpty(c.q.binary)
    requires PutData(c, at, payload, flags).droppedBytes == c.droppedBytes
    ensures Queued(c, PutData(c, at, payload, flags), at, payload, flags)
  {
    hide ShedFor, Announce;
    var c0 := c.(tracker := Run(c.tracker, payload));
    ShedForCounts(c0, |payload|);
    var c1 := c0.(droppedBytes := c.droppedBytes + |payload|, droppedEvents := c.droppedEvents + 1);
    AnnounceCounts(c1);
    AnnounceCounts(c1.(lostFrom := if c.lostFrom == None then Some(at) else c.lostFrom,
                       lostTo := Some(at + |payload|)));
  }

  /** A frame for which there is room is queued without loss. */
  lemma RoomQueues(c: Client, at: int, payload: bytes, flags: Flags)
    requires c.version >= 2 && !flags.snapshot
    requires c.maxBytes > 0 ==> c.pending + |payload| <= c.maxBytes && 0 <= c.pending
    requires QueueLen(c.q) < c.maxPending
    ensures Queued(c, PutData(c, at, payload, flags), at, payload, flags)
  {
    hide DropOldest, Announce;
    var c0 := c.(tracker := Run(c.tracker, payload));
    assert !Over(c0, |payload|);
  }

  // ---------------------------------------------------------------------
  // A replay that fits
  // ---------------------------------------------------------------------

  function Length(pieces: seq<Piece>): nat {
    if pieces == [] then 0 else |pieces[0].data| + Length(pieces[1..])
  }

  lemma {:induction false} CoversLength(pieces: seq<Piece>, stream: bytes, from: int, to: int)
    requires Covers(pieces, stream, from, to)
    ensures from + Length(pieces) == to
  {
    if pieces != [] { CoversLength(pieces[1..], stream, from + |pieces[0].data|, to); }
  }

  /** The queued frames are these pieces, with true offsets and these flags. */
  ghost predicate ArePieces(frames: seq<Frame>, pieces: seq<Piece>, flags: Flags) {
    && |frames| == |pieces|
    && forall i :: 0 <= i < |frames| ==>
         frames[i].at == Some(pieces[i].at) && frames[i].payload == pieces[i].data && frames[i].flags == flags
  }

  lemma {:induction false} PiecesFit(c: Client, pieces: seq<Piece>, flags: Flags)
    requires c.version >= 2 && !flags.snapshot && 0 <= c.pending
    requires c.maxBytes > 0 ==> c.pending + Length(pieces) <= c.maxBytes
    requires QueueLen(c.q) + |pieces| <= c.maxPending
    ensures var d := PutPieces(c, pieces, flags);
      && d.droppedBytes == c.droppedBytes && d.droppedEvents == c.droppedEvents
      && d.q.control == c.q.control
      && exists extra :: d.q.binary == c.q.binary + extra && ArePieces(extra, pieces, flags)
    decreases |pieces|
  {
    hide PutData, Run;
    if pieces == [] {
      assert c.q.binary == c.q.binary + [] && ArePieces([], pieces, flags);
    } else {
      RoomQueues(c, pieces[0].at, pieces[0].data, flags);
      var c1 := PutData(c, pieces[0].at, pieces[0].data, flags);
      PiecesFit(c1, pieces[1..], flags);
      var d := PutPieces(c, pieces, flags);
      hide PutPieces;
      var rest :| d.q.binary == c1.q.binary + rest && ArePieces(rest, pieces[1..], flags);
      var extra := [c1.q.binary[|c.q.binary|]] + rest;
      assert d.q.binary == c.q.binary + extra;
      assert forall i :: 0 < i < |extra| ==> extra[i] == rest[i - 1] && pieces[i] == pieces[1..][i - 1];
      assert ArePieces(extra, pieces, flags);
    }
  }

  /** The size of a replay frame: 64 KiB, or the byte budget of the viewer if that is smaller. */
  function FrameLimit(budget: int): (t: int)
    ensures 1 <= t <= 65536 && (budget > 0 ==> t <= budget)
  {
    if 0 < budget < 65536 then budget else 65536
  }

  /** How many frames of `t` bytes hold `size` bytes. */
  function FramesFor(size: nat, t: int): (n: int)
    requires t > 0
    ensures n >= 0
  {
    (size + t - 1) / t
  }

  lemma TimesGrows(a: int, b: int, t: int)
    requires a <= b && t > 0
    ensures a * t <= b * t
  {
    assert (b - a) * t >= 0;
  }

  lemma CountFrames(n: int, size: nat, t: int)
    requires t > 0 && n >= 0 && (n > 0 ==> (n - 1) * t < size)
    ensures n <= FramesFor(size, t)
  {
    var q := FramesFor(size, t);
    Quotient(size + t - 1, t);
    if n > q { TimesGrows(q, n - 1, t); }
  }

  lemma Quotient(a: int, t: int)
    requires t > 0
    ensures a - t < (a / t) * t <= a
  {
  }

  /** No replay frame is longer than 64 KiB or the budget, and there are no more than it takes. */
  lemma ReplaySizes(r: Ring, budget: int)
    requires r.size == |Flatten(r.chunks)|
    ensures var f := ReplayFrames(r, ReplayTarget(budget));
      && (forall i :: 0 <= i < |f| ==> 0 < |f[i].data| <= FrameLimit(budget))
      && (forall i :: 0 <= i < |f| - 1 ==> |f[i].data| == FrameLimit(budget))
      && |f| <= FramesFor(r.size, FrameLimit(budget))
  {
    hide Framed, FramesFor;
    FramedIsTight(Base(r), Flatten(r.chunks), FrameLimit(budget));
    CountFrames(|ReplayFrames(r, ReplayTarget(budget))|, r.size, FrameLimit(budget));
  }

  /** The client has room for the clear and a replay of this buffer. */
  ghost predicate RoomForReplay(c: Client, r: Ring) {
    && 0 <= c.pending
    && (c.maxBytes > 0 ==> c.pending + r.size + 11 <= c.maxBytes)
    && r.size >= 0 && QueueLen(c.q) + 1 + FramesFor(r.size, FrameLimit(c.maxBytes)) <= c.maxPending
  }

  /** What a replay that lost nothing has added to the line: the clear, then the buffer in frames of full size. */
  ghost predicate Replayed(c: Client, d: Client, r: Ring, stream: bytes, pieces: seq<Piece>) {
    && d.droppedBytes == c.droppedBytes && d.droppedEvents == c.droppedEvents && d.q.control == c.q.control
    && |d.q.binary| == |c.q.binary| + 1 + |pieces| && d.q.binary[..|c.q.binary|] == c.q.binary
    && d.q.binary[|c.q.binary|].payload == CLEAR && d.q.binary[|c.q.binary|].flags == DISPLAY
    && ArePieces(d.q.binary[|c.q.binary| + 1..], pieces, REPLAY)
    && Covers(pieces, stream, Base(r), |stream|)
    && (forall i :: 0 <= i < |pieces| ==> 0 < |pieces[i].data| <= FrameLimit(c.maxBytes))
    && (forall i :: 0 <= i < |pieces| - 1 ==> |pieces[i].data| == FrameLimit(c.maxBytes))
  }

  lemma ReplayFits(c: Client, r: Ring, stream: bytes, origin: nat) returns (pieces: seq<Piece>)
    requires c.version >= 2 && Tracks(r, stream, origin) && RoomForReplay(c, r)
    ensures Replayed(c, RawReplay(c, r), r, stream, pieces)
  {
    hide PutData, ReplayFrames, PutPieces, FramesFor, FrameLimit, ReplayTarget, Run, Flatten;
    pieces := ReplayFrames(r, ReplayTarget(c.maxBytes));
    assert r.size == |Flatten(r.chunks)|;
    ReplayIsWhole(r, stream, origin, ReplayTarget(c.maxBytes));
    CoversLength(pieces, stream, Base(r), |stream|);
    ReplaySizes(r, c.maxBytes);
    RoomQueues(c, r.endSeq, CLEAR, DISPLAY);
    var c1 := PutData(c, r.endSeq, CLEAR, DISPLAY);
    PiecesFit(c1, pieces, REPLAY);
    var c2 := PutPieces(c1, pieces, REPLAY);
    var extra :| c2.q.binary == c1.q.binary + extra && ArePieces(extra, pieces, REPLAY);
    assert c2.q.binary[|c.q.binary| + 1..] == extra;
    assert c2.q.binary[..|c.q.binary|] == c.q.binary;
  }

  /**
    Attaching a fresh viewer whose budget holds the whole buffer and the clear,
    and whose queue holds as many 64 KiB frames as the buffer fills and the clear,
    drops nothing and says so: the line is the clear, the buffer from its base to
    the stream's end, and `attached`.
  */
  lemma FittingReplay(r: Ring, stream: bytes, origin: nat, maxPending: int,
                      budget: int, generation: int, last: Option<int>, theirs: Option<int>)
      returns (pieces: seq<Piece>)
    requires Tracks(r, stream, origin) && !ResumeOk(r, generation, last, theirs)
    requires budget <= 0 || r.size + 11 <= budget
    requires var t := if 0 < budget < 65536 then budget else 65536; (r.size + t - 1) / t + 1 <= maxPending
    ensures
      var c := Fresh(2, maxPending, budget);
      var d := AttachV2(c, r, generation, last, theirs, None);
      && Replayed(c, d.(q := d.q.(control := [])), r, stream, pieces)
      && d.droppedBytes == 0 && d.droppedEvents == 0 && |d.q.binary| == |pieces| + 1
      && |d.q.control| == 1
      && d.q.control[0].msg == Attached(generation, |stream|, Base(r), true, false, false)
  {
    hide RawReplay, Flatten;
    var c := Fresh(2, maxPending, budget);
    assert RoomForReplay(c, r);
    pieces := ReplayFits(c, r, stream, origin);
  }

  /** A repair for which there is room drops nothing, and is complete unless the buffer no longer reaches the viewer. */
  lemma FittingResync(c: Client, r: Ring, stream: bytes, origin: nat, last: Option<int>)
      returns (pieces: seq<Piece>)
    requires c.version >= 2 && Tracks(r, stream, origin) && RoomForReplay(c, r)
    ensures Replayed(c, Resync(c, r, last, None).0, r, stream, pieces)
    ensures Resync(c, r, last, None).1 <==> (last != None && last.value < Base(r))
  {
    hide PutData, ReplayFrames, PutPieces, FramesFor, FrameLimit;
    pieces := ReplayFits(c, r, stream, origin);
    RoomQueues(c, r.endSeq, CLEAR, DISPLAY);
    assert Resync(c, r, last, None).0 == RawReplay(c, r);
  }

  lemma {:induction false} FromIsNoLonger(chunks: seq<bytes>, at: int, last: int)
    ensures |From(Numbered(chunks, at), last)| <= |chunks|
    decreases |chunks|
  {
    if chunks != [] {
      FromIsNoLonger(chunks[1..], at + |chunks[0]|, last);
      assert Numbered(chunks, at)[1..] == Numbered(chunks[1..], at + |chunks[0]|);
    }
  }

  /**
    A resume for which there is room sends the bytes the viewer has not seen and
    nothing else: no clear and no screen, even if the session has one.
  */
  lemma FittingResume(r: Ring, stream: bytes, origin: nat, maxPending: int, budget: int, generation: int,
                      last: int, snap: Option<bytes>) returns (pieces: seq<Piece>)
    requires Tracks(r, stream, origin) && Base(r) <= last <= |stream|
    requires (budget <= 0 || |stream| - last <= budget) && |r.chunks| <= maxPending
    ensures
      var d := AttachV2(Fresh(2, maxPending, budget), r, generation, Some(last), Some(generation), snap);
      && ArePieces(d.q.binary, pieces, REPLAY) && Covers(pieces, stream, last, |stream|)
      && d.droppedBytes == 0 && d.droppedEvents == 0
      && |d.q.control| == 1
      && d.q.control[0].msg == Attached(generation, |stream|, Base(r), false, false, false)
  {
    hide PutData, PutPieces, From, Numbered, OfferSnapshot;
    var c := Fresh(2, maxPending, budget);
    SinceIsExact(r, stream, origin, last);
    pieces := Since(r, last).value;
    CoversLength(pieces, stream, last, |stream|);
    FromIsNoLonger(r.chunks, Base(r), last);
    PiecesFit(c, pieces, REPLAY);
    var d := PutPieces(c, pieces, REPLAY);
    var extra :| d.q.binary == c.q.binary + extra && ArePieces(extra, pieces, REPLAY);
    assert d.q.binary == extra;
  }
}
