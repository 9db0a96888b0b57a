/**
  What the flag `incomplete` of an attach and of a resynchronisation tells: it
  counts evictions that were reported, and an eviction can go unreported.
*/
module Reports {
  import opened Bytes
  import opened Ansi
  import opened Protocol
  import opened OutboundQueues
  import opened ClientSpec
  import opened ClientRuns
  import opened Shedding
  import opened RingSpec
  import opened Replay
  import opened SessionSpec
  import opened SnapshotGroups
  import opened Lossless
  import opened Resume

  // ---------------------------------------------------------------------
  // One put
  // ---------------------------------------------------------------------

  /** What making room leaves of a client whose loss is not reported. */
  ghost predicate Drained(c: Client, d: Client) {
    && d.q == c.q.(binary := []) && d.pending == 0
    && d.droppedBytes == c.droppedBytes + Total(c.q.binary)
    && d == c.(q := d.q, pending := d.pending, droppedBytes := d.droppedBytes,
               lostFrom := d.lostFrom, lostTo := d.lostTo)
  }

  /** Where every frame ends inside a sequence, one drop takes them all and reports failure. */
  lemma DrainsAll(c: Client)
    requires AllInside(c.q.binary) && c.pending == Total(c.q.binary)
    ensures !DropLive(c).1 && Drained(c, DropLive(c).0)
  {
    assert Total([]) == 0;
    DropLiveStops(c);
    DropLiveEvicts(c);
    DropLiveBytes(c);
    hide DropLive, Total;
  }

  /** Making room is unreported exactly when none is needed, or every queued frame ends inside a sequence. */
  lemma RoomUnreported(c: Client, size: int)
    requires SnapshotsEndOutside(c.q.binary) && c.pending == Total(c.q.binary)
    ensures var d := ShedFor(c, size);
      && d.droppedEvents >= c.droppedEvents
      && (d.droppedEvents == c.droppedEvents <==> (Over(c, size) ==> AllInside(c.q.binary)))
      && (!Over(c, size) ==> d == c)
      && (Over(c, size) && AllInside(c.q.binary) ==> Drained(c, d))
  {
    hide DropGroup, DropLive, Announce, Total;
    if Over(c, size) {
      if c.q.binary == [] {
        assert DropOldest(c) == (c, false) && Total([]) == 0 by { NothingTotal(); }
        assert c.q == c.q.(binary := []);
      } else if AllInside(c.q.binary) {
        DrainsAll(c);
        assert !c.q.binary[0].flags.snapshot;
        assert DropOldest(c) == DropLive(c);
      } else {
        Reported(c, size);
      }
    }
  }

  lemma NothingTotal()
    ensures Total([]) == 0
  {
  }

  lemma Reported(c: Client, size: int)
    requires SnapshotsEndOutside(c.q.binary) && Over(c, size) && c.q.binary != [] && !AllInside(c.q.binary)
    ensures ShedFor(c, size).droppedEvents == c.droppedEvents + 1
  {
    hide DropGroup, DropLive, Announce;
    DropShrinks(c);
    DropLiveStops(c);
    DropOldestEvicts(c);
    var (c1, ok) := DropOldest(c);
    assert ok;
    hide DropOldest;
    LaterRoundsAreCounted(c1, size);
    ShedLoopEvicts(c1, size, true);
    var d := ShedLoop(c, size, false).0;
    assert ShedLoop(c, size, false) == ShedLoop(c1, size, true);
    AnnounceCounts(d.(droppedEvents := d.droppedEvents + 1));
  }

  // ---------------------------------------------------------------------
  // A replay
  // ---------------------------------------------------------------------

  /**
    What of a queue decides whether a replay behind it is reported: the state of
    the parser, whether every frame ends inside a sequence, and how much is queued.
  */
  datatype Line = Line(
    state: State,
    inside: bool,
    queued: int,
    frames: nat,
    controls: nat,
    maxBytes: int,
    maxPending: int)

  ghost function LineOf(c: Client): Line {
    Line(c.tracker, AllInside(c.q.binary), c.pending, |c.q.binary|, |c.q.control|, c.maxBytes, c.maxPending)
  }

  predicate Full(l: Line, size: int) {
    (l.maxBytes > 0 && l.queued + size > l.maxBytes) || l.frames + l.controls >= l.maxPending
  }

  /** After a put that is not reported: the frame behind the others, or alone. */
  function NextLine(l: Line, data: bytes): Line {
    var s := Run(l.state, data);
    if Full(l, |data|) then l.(state := s, inside := s != Outside, queued := |data|, frames := 1)
    else l.(state := s, inside := l.inside && s != Outside, queued := l.queued + |data|, frames := l.frames + 1)
  }

  /**
    No put of the replay is reported: each piece fits the budget, and each that
    finds no room finds only frames that end inside a sequence.
  */
  predicate Unreported(l: Line, pieces: seq<Piece>)
    decreases |pieces|
  {
    pieces == []
    || (var data := pieces[0].data;
        && (l.maxBytes <= 0 || |data| <= l.maxBytes)
        && (Full(l, |data|) ==> l.inside)
        && Unreported(NextLine(l, data), pieces[1..]))
  }

  /** The bytes such a replay evicts. */
  function Unseen(l: Line, pieces: seq<Piece>): int
    decreases |pieces|
  {
    if pieces == [] then 0
    else
      var data := pieces[0].data;
      (if Full(l, |data|) then l.queued else 0) + Unseen(NextLine(l, data), pieces[1..])
  }

  lemma FrameJoins(c: Client, d: Client, data: bytes, f: Frame)
    requires SnapshotsEndOutside(c.q.binary) && c.pending == Total(c.q.binary)
    requires d.q.binary == c.q.binary + [f] && f.payload == data && !f.flags.snapshot && d.pending == c.pending + |data|
    ensures SnapshotsEndOutside(d.q.binary) && d.pending == Total(d.q.binary)
    ensures AllInside(d.q.binary) <==> AllInside(c.q.binary) && f.endsInside
  {
    TotalSnoc(c.q.binary, f);
    hide Total;
    assert d.q.binary[|c.q.binary|] == f;
    assert forall i :: 0 <= i < |c.q.binary| ==> d.q.binary[i] == c.q.binary[i];
  }

  lemma OversizeReported(c: Client, x: Piece)
    requires c.version >= 2 && !Fits(c, x.data)
    ensures var d := PutData(c, x.at, x.data, REPLAY);
      d.droppedEvents == c.droppedEvents + 1 && d.version == c.version
  {
    hide Announce, Run;
    var c1 := c.(tracker := Run(c.tracker, x.data), droppedBytes := c.droppedBytes + |x.data|,
                 droppedEvents := c.droppedEvents + 1,
                 lostFrom := if c.lostFrom == None then Some(x.at) else c.lostFrom,
                 lostTo := Some(x.at + |x.data|));
    AnnounceCounts(c1);
    AnnounceShape(c1);
  }

  lemma FittingReported(c: Client, x: Piece)
    requires c.version >= 2 && SnapshotsEndOutside(c.q.binary) && c.pending == Total(c.q.binary) && Fits(c, x.data)
    ensures var d, l := PutFitting(c, x.data, Some(x.at), REPLAY), LineOf(c);
      var quiet := Full(l, |x.data|) ==> l.inside;
      && d.droppedEvents >= c.droppedEvents && d.version == c.version
      && (d.droppedEvents == c.droppedEvents <==> quiet)
      && (quiet ==>
            && LineOf(d) == NextLine(l, x.data)
            && SnapshotsEndOutside(d.q.binary) && d.pending == Total(d.q.binary)
            && d.droppedBytes == c.droppedBytes + if Full(l, |x.data|) then l.queued else 0)
  {
    hide ShedFor, Run, Total, AllInside, SnapshotsEndOutside;
    var s := Run(c.tracker, x.data);
    var c0 := c.(tracker := s);
    RoomUnreported(c0, |x.data|);
    ShedForShape(c0, |x.data|);
    var c1 := ShedFor(c0, |x.data|);
    if c1.droppedEvents == c.droppedEvents {
      NothingQueued(c1);
      var f := Frame(c1.q.order + 1, x.data, s != Outside, Some(x.at), REPLAY);
      FrameJoins(c1, PutFitting(c, x.data, Some(x.at), REPLAY), x.data, f);
    }
  }

  lemma PutReported(c: Client, x: Piece)
    requires c.version >= 2 && SnapshotsEndOutside(c.q.binary) && c.pending == Total(c.q.binary)
    ensures var d, l := PutData(c, x.at, x.data, REPLAY), LineOf(c);
      var quiet := Fits(c, x.data) && (Full(l, |x.data|) ==> l.inside);
      && d.droppedEvents >= c.droppedEvents && d.version == c.version
      && (d.droppedEvents == c.droppedEvents <==> quiet)
      && (quiet ==>
            && LineOf(d) == NextLine(l, x.data)
            && SnapshotsEndOutside(d.q.binary) && d.pending == Total(d.q.binary)
            && d.droppedBytes == c.droppedBytes + if Full(l, |x.data|) then l.queued else 0)
  {
    if Fits(c, x.data) { FittingReported(c, x); } else { OversizeReported(c, x); }
    hide PutFitting, PutOversize, LineOf, NextLine, Full, SnapshotsEndOutside, Total;
  }

  lemma NothingQueued(c: Client)
    ensures c.q.binary == [] ==> AllInside(c.q.binary) && SnapshotsEndOutside(c.q.binary) && Total(c.q.binary) == 0
  {
  }

  /** A replay moves no counter exactly when no put of it is reported; what it evicts is then known beforehand. */
  lemma {:induction false} ReplayReported(c: Client, pieces: seq<Piece>)
    requires c.version >= 2 && SnapshotsEndOutside(c.q.binary) && c.pending == Total(c.q.binary)
    ensures var d, l := PutPieces(c, pieces, REPLAY), LineOf(c);
      && d.droppedEvents >= c.droppedEvents
      && (d.droppedEvents == c.droppedEvents <==> Unreported(l, pieces))
      && (Unreported(l, pieces) ==> d.droppedBytes == c.droppedBytes + Unseen(l, pieces))
    decreases |pieces|
  {
    hide PutData, NextLine, Full, AllInside, Total, SnapshotsEndOutside;
    if pieces != [] {
      var x := pieces[0];
      var c1 := PutData(c, x.at, x.data, REPLAY);
      PutReported(c, x);
      EventsGrow(c1, pieces[1..]);
      if c1.droppedEvents == c.droppedEvents { ReplayReported(c1, pieces[1..]); }
    }
  }

  lemma {:induction false} EventsGrow(c: Client, pieces: seq<Piece>)
    requires c.version >= 2
    ensures PutPieces(c, pieces, REPLAY).droppedEvents >= c.droppedEvents
    decreases |pieces|
  {
    hide PutData;
    if pieces != [] {
      PutCountsUp(c, pieces[0].at, pieces[0].data);
      EventsGrow(PutData(c, pieces[0].at, pieces[0].data, REPLAY), pieces[1..]);
    }
  }

  lemma PutCountsUp(c: Client, at: int, data: bytes)
    requires c.version >= 2
    ensures var d := PutData(c, at, data, REPLAY);
      d.droppedEvents >= c.droppedEvents && d.version == c.version
  {
    hide ShedFor, ShedLoop, Announce, Run;
    var c0 := c.(tracker := Run(c.tracker, data));
    ShedForShape(c0, |data|);
    RoomCountsUp(c0, |data|);
    var c1 := c0.(droppedBytes := c.droppedBytes + |data|, droppedEvents := c.droppedEvents + 1,
                  lostFrom := if c.lostFrom == None then Some(at) else c.lostFrom, lostTo := Some(at + |data|));
    AnnounceCounts(c1);
    AnnounceShape(c1);
  }

  lemma RoomCountsUp(c: Client, size: int)
    ensures ShedFor(c, size).droppedEvents >= c.droppedEvents
  {
    hide ShedLoop, Announce;
    var d := ShedLoop(c, size, false).0;
    ShedLoopEvicts(c, size, false);
    AnnounceCounts(d.(droppedEvents := d.droppedEvents + 1));
  }

  // ---------------------------------------------------------------------
  // The clear
  // ---------------------------------------------------------------------

  /** A frame in line that ends outside a sequence is not evicted unreported. */
  lemma {:induction false} GuardedReplay(l: Line, pieces: seq<Piece>)
    requires !l.inside && Unreported(l, pieces)
    ensures Unseen(l, pieces) == 0
    decreases |pieces|
  {
    if pieces != [] { GuardedReplay(NextLine(l, pieces[0].data), pieces[1..]); }
  }

  lemma {:induction false} UnseenIsLoss(l: Line, pieces: seq<Piece>)
    requires l.queued >= 0
    ensures Unseen(l, pieces) >= 0
    decreases |pieces|
  {
    if pieces != [] { UnseenIsLoss(NextLine(l, pieces[0].data), pieces[1..]); }
  }

  /** A replay that evicts nothing counts nothing. */
  lemma {:induction false} NoLossNoCount(c: Client, pieces: seq<Piece>)
    requires c.version >= 2 && NoneEmpty(c.q.binary)
    requires forall i :: 0 <= i < |pieces| ==> |pieces[i].data| > 0
    requires PutPieces(c, pieces, REPLAY).droppedBytes == c.droppedBytes
    ensures PutPieces(c, pieces, REPLAY).droppedEvents == c.droppedEvents
    decreases |pieces|
  {
    hide PutData;
    if pieces != [] {
      var x := pieces[0];
      var c1 := PutData(c, x.at, x.data, REPLAY);
      PutDataCounts(c, x.at, x.data, REPLAY);
      PutDataIdentity(c, x.at, x.data, REPLAY);
      PiecesCount(c1, pieces[1..], REPLAY);
      NoLossQueues(c, x.at, x.data, REPLAY);
      NoLossNoCount(c1, pieces[1..]);
    }
  }

  lemma {:induction false} CoversNonEmpty(pieces: seq<Piece>, stream: bytes, from: int, to: int)
    requires Covers(pieces, stream, from, to)
    ensures forall i :: 0 <= i < |pieces| ==> |pieces[i].data| > 0
  {
    if pieces != [] { CoversNonEmpty(pieces[1..], stream, from + |pieces[0].data|, to); }
  }

  // ---------------------------------------------------------------------
  // The flag of an attach
  // ---------------------------------------------------------------------

  /** On an empty line the clear is queued, and guards what follows; or it is over the budget, which is reported. */
  lemma ClearOnEmpty(c: Client, at: int)
    requires c.version >= 2 && c.q.binary == [] && c.pending == 0 && c.tracker == Outside
    ensures var d := PutData(c, at, CLEAR, DISPLAY);
      && d.version >= 2
      && (Fits(c, CLEAR) ==>
            && d.droppedBytes == c.droppedBytes && d.droppedEvents == c.droppedEvents
            && |d.q.binary| == 1 && !d.q.binary[0].endsInside && !d.q.binary[0].flags.snapshot
            && d.q.binary[0].payload == CLEAR && d.pending == |CLEAR|)
      && (!Fits(c, CLEAR) ==> d.droppedBytes > c.droppedBytes && d.droppedEvents > c.droppedEvents)
  {
    ClearInsideOsc(Outside);
    hide Run, Announce;
    var c0 := c.(droppedBytes := c.droppedBytes + |CLEAR|, droppedEvents := c.droppedEvents + 1);
    AnnounceCounts(c0);
    AnnounceShape(c0);
  }

  /** A cleared raw replay on an empty line counts a loss exactly when bytes went. */
  lemma RawReplayReported(c: Client, r: Ring, stream: bytes)
    requires Tracks(r, stream, 0)
    requires c.version >= 2 && c.q.binary == [] && c.pending == 0 && c.tracker == Outside
    ensures var d := RawReplay(c, r);
      && d.droppedBytes >= c.droppedBytes && d.droppedEvents >= c.droppedEvents
      && (d.droppedEvents > c.droppedEvents <==> d.droppedBytes > c.droppedBytes)
  {
    hide PutData, Total;
    var c1 := PutData(c, r.endSeq, CLEAR, DISPLAY);
    var pieces := ReplayFrames(r, ReplayTarget(c.maxBytes));
    ReplayIsWhole(r, stream, 0, ReplayTarget(c.maxBytes));
    CoversNonEmpty(pieces, stream, Base(r), |stream|);
    hide ReplayFrames;
    ClearOnEmpty(c, r.endSeq);
    PiecesCount(c1, pieces, REPLAY);
    EventsGrow(c1, pieces);
    if Fits(c, CLEAR) {
      OneTotal(c1.q.binary);
      ReplayReported(c1, pieces);
      if c1.droppedEvents == RawReplay(c, r).droppedEvents { GuardedReplay(LineOf(c1), pieces); }
      if c1.droppedBytes == RawReplay(c, r).droppedBytes { NoLossNoCount(c1, pieces); }
    }
  }

  lemma OneTotal(frames: seq<Frame>)
    requires |frames| == 1
    ensures Total(frames) == |frames[0].payload|
  {
    assert frames[1..] == [];
    NothingTotal();
  }

  /** A viewer that attaches to a cleared replay is told `incomplete` exactly when bytes of it went. */
  lemma RawAttachFlag(r: Ring, stream: bytes, generation: int, maxPending: int, budget: int,
                      last: Option<int>, theirs: Option<int>, snap: Option<bytes>) returns (incomplete: bool)
    requires Tracks(r, stream, 0) && !ResumeOk(r, generation, last, theirs)
    requires !OfferSnapshot(Fresh(2, maxPending, budget), r.endSeq, snap).1
    ensures var c := Fresh(2, maxPending, budget);
      var c1, d := OfferSnapshot(c, r.endSeq, snap).0, AttachV2(c, r, generation, last, theirs, snap);
      && d == PutControl(RawReplay(c1, r), Attached(generation, r.endSeq, Base(r), true, false, incomplete))
      && (incomplete <==> d.droppedBytes > c1.droppedBytes)
  {
    hide RawReplay, OfferSnapshot;
    var c := Fresh(2, maxPending, budget);
    if HasScreen(snap) { OfferOnFresh(maxPending, budget, r.endSeq, snap); } else { NothingOffered(c, r.endSeq, snap); }
    var c1 := OfferSnapshot(c, r.endSeq, snap).0;
    RawReplayReported(c1, r, stream);
    incomplete := RawReplay(c1, r).droppedEvents > c1.droppedEvents;
  }

  lemma NothingOffered(c: Client, end: int, snap: Option<bytes>)
    requires !HasScreen(snap)
    ensures OfferSnapshot(c, end, snap) == (c, false)
  {
  }

  /**
    A viewer that resumes is told `incomplete` exactly when a put of the replay
    is reported.  So it is told nothing although bytes went exactly when none is
    reported, and there is something to evict when one of them finds no room.
  */
  lemma ResumeFlag(c: Client, r: Ring, generation: int, last: Option<int>, theirs: Option<int>, snap: Option<bytes>)
      returns (incomplete: bool)
    requires c.version >= 2 && SnapshotsEndOutside(c.q.binary) && c.pending == Total(c.q.binary)
    requires ResumeOk(r, generation, last, theirs) && Since(r, last.value) != None
    ensures var pieces, d := Since(r, last.value).value, AttachV2(c, r, generation, last, theirs, snap);
      && d == PutControl(PutPieces(c, pieces, REPLAY),
          Attached(generation, r.endSeq, Base(r), false, false, incomplete))
      && (!incomplete <==> Unreported(LineOf(c), pieces))
      && (!incomplete ==> d.droppedBytes == c.droppedBytes + Unseen(LineOf(c), pieces))
  {
    hide PutPieces, Unreported, Unseen, Since, LineOf, Total;
    var pieces := Since(r, last.value).value;
    ReplayReported(c, pieces);
    incomplete := PutPieces(c, pieces, REPLAY).droppedEvents > c.droppedEvents;
  }

  // ---------------------------------------------------------------------
  // The flag of a resynchronisation
  // ---------------------------------------------------------------------

  /** What every reachable open client keeps that a replay needs. */
  ghost predicate Proper(c: Client) {
    c.version >= 2 && !c.closed && Bounded(c) && Atomic(c.q)
  }

  lemma ProperLine(c: Client)
    requires Proper(c)
    ensures SnapshotsEndOutside(c.q.binary) && c.pending == Total(c.q.binary)
  {
    HeadsAreFrames(c.q);
  }

  lemma PutProper(c: Client, at: int, payload: bytes, flags: Flags)
    requires Proper(c)
    ensures Proper(PutData(c, at, payload, flags))
  {
    hide PutData, Bounded, Atomic;
    var act := PutDataAct(at, payload, flags);
    assert Do(c, act) == PutData(c, at, payload, flags);
    hide Do;
    DoBounded(c, act);
    DoAtomic(c, act);
    PutDataIdentity(c, at, payload, flags);
  }

  lemma OfferProper(c: Client, end: int, snap: Option<bytes>)
    requires Proper(c)
    ensures Proper(OfferSnapshot(c, end, snap).0)
  {
    hide Proper, PutData;
    if HasScreen(snap) { PutProper(c, end, snap.value, SNAPSHOT); }
  }

  /** The line once the clear of a resynchronisation has been put, behind whatever a refused snapshot left. */
  function ClearedLine(c: Client, r: Ring, snap: Option<bytes>): Client {
    PutData(OfferSnapshot(c, r.endSeq, snap).0, r.endSeq, CLEAR, DISPLAY)
  }

  function RepairPieces(c: Client, r: Ring, snap: Option<bytes>): seq<Piece> {
    ReplayFrames(r, ReplayTarget(OfferSnapshot(c, r.endSeq, snap).0.maxBytes))
  }

  /**
    A resynchronisation without a snapshot is reported `incomplete` exactly when
    the head of the viewer's screen is gone from the ring or a put of the replay
    is reported; what went unreported since the clear is known when it is put.
  */
  lemma ResyncFlag(c: Client, r: Ring, last: Option<int>, snap: Option<bytes>)
    requires Proper(c) && !OfferSnapshot(c, r.endSeq, snap).1
    ensures var (d, incomplete) := Resync(c, r, last, snap);
      var b, pieces := ClearedLine(c, r, snap), RepairPieces(c, r, snap);
      && (!incomplete <==> !(last != None && last.value < Base(r)) && Unreported(LineOf(b), pieces))
      && (!incomplete ==> d.droppedBytes == b.droppedBytes + Unseen(LineOf(b), pieces))
  {
    hide Proper, PutData, OfferSnapshot, PutPieces, Unreported, Unseen, LineOf, ReplayFrames;
    OfferProper(c, r.endSeq, snap);
    var c1 := OfferSnapshot(c, r.endSeq, snap).0;
    PutProper(c1, r.endSeq, CLEAR, DISPLAY);
    var b := ClearedLine(c, r, snap);
    ProperLine(b);
    ProperVersion(b);
    ReplayReported(b, RepairPieces(c, r, snap));
  }

  lemma ProperVersion(c: Client)
    requires Proper(c)
    ensures c.version >= 2
  {
  }

  /**
    Outside an OSC string the flag can be trusted: if the clear fits the budget
    and the viewer is not told otherwise, nothing went since the clear was put.
  */
  lemma ResyncFlagOutsideOsc(c: Client, r: Ring, last: Option<int>, snap: Option<bytes>)
    requires Proper(c) && !OfferSnapshot(c, r.endSeq, snap).1 && Fits(c, CLEAR)
    requires c.tracker != Osc && c.tracker != OscSt
    requires !Resync(c, r, last, snap).1
    ensures Resync(c, r, last, snap).0.droppedBytes == ClearedLine(c, r, snap).droppedBytes
  {
    hide Proper, OfferSnapshot, PutPieces, Unreported, Unseen, ReplayFrames, PutData, AllInside;
    ResyncFlag(c, r, last, snap);
    OfferProper(c, r.endSeq, snap);
    var c1 := OfferSnapshot(c, r.endSeq, snap).0;
    ProperVersion(c);
    ProperVersion(c1);
    OfferIdentity(c, r.endSeq, snap);
    ClearGuards(c1, r.endSeq);
    GuardedReplay(LineOf(ClearedLine(c, r, snap)), RepairPieces(c, r, snap));
  }

  lemma OfferIdentity(c: Client, end: int, snap: Option<bytes>)
    requires c.version >= 2
    ensures var d := OfferSnapshot(c, end, snap).0;
      d.maxBytes == c.maxBytes && d.tracker == c.tracker
  {
    hide ShedFor, Split, EnqueueChunks, Announce;
    if HasScreen(snap) {
      ShedForShape(c, |snap.value|);
      var c1 := ShedFor(c, |snap.value|);
      EnqueueChunksCounts(c1.(pending := c1.pending + |snap.value|), Split(snap.value), end, SNAPSHOT);
    }
  }

  /** A clear that is queued outside an OSC string ends outside a sequence. */
  lemma ClearGuards(c: Client, at: int)
    requires c.version >= 2 && Fits(c, CLEAR) && c.tracker != Osc && c.tracker != OscSt
    ensures !AllInside(PutData(c, at, CLEAR, DISPLAY).q.binary)
  {
    ClearInsideOsc(c.tracker);
    hide ShedFor, Run;
    var b := PutData(c, at, CLEAR, DISPLAY).q.binary;
    assert !b[|b| - 1].endsInside;
  }

  // ---------------------------------------------------------------------
  // Two viewers that are told nothing
  // ---------------------------------------------------------------------

  const TITLE: bytes := [ESC, RBRACKET]

  /** A viewer with a budget of eleven bytes that has been sent the start of an OSC string. */
  function InTitle(): Client {
    Do(PutData(Fresh(2, 512, 11), 0, TITLE, LIVE), SendAct)
  }

  lemma TitleOpens()
    ensures Run(Outside, TITLE) == Osc && Run(Osc, CLEAR) != Outside
  {
    RunSnoc(Outside, TITLE, 0);
    RunSnoc(Outside, TITLE, 1);
    assert TITLE[..2] == TITLE;
    ClearInsideOsc(Osc);
  }

  /** The viewer's line is empty, and its stream stands inside the string. */
  const IN_TITLE := Fresh(2, 512, 11).(
    q := Queues([], [], 1, [Frame(1, TITLE, true, Some(0), LIVE)], [], [1]), tracker := Osc)

  lemma InTitleIs()
    ensures InTitle() == IN_TITLE
  {
    TitleOpens();
    hide Run;
    var c := PutData(Fresh(2, 512, 11), 0, TITLE, LIVE);
    var f := Frame(1, TITLE, true, Some(0), LIVE);
    assert c == IN_TITLE.(q := Queues([f], [], 1, [f], [], []), pending := 2);
    hide PutData;
    assert ToWire(Data(f)) != None;
    hide ToWire;
  }

  /** The ring that holds the start of the string, and no more. */
  lemma TitleRing()
    ensures Append(Empty(1000), TITLE) == Ring(1000, [TITLE], [Osc], Osc, 2, 2)
  {
    TitleOpens();
    hide Run;
  }

  lemma OneFrame(r: Ring, target: int)
    requires r.chunks == [TITLE] && Base(r) == 0 && target >= 2
    ensures ReplayFrames(r, target) == [Piece(0, TITLE)]
  {
    assert r.chunks[1..] == [];
    assert Flatten<byte>([]) == [] && Flatten(r.chunks) == TITLE;
    assert Framed(2, [], target) == [] && TITLE[2..] == [] && TITLE[..2] == TITLE;
  }

  /** The clear takes up the whole budget, and ends inside the string. */
  lemma ClearInTitle() returns (s: State)
    ensures PutData(IN_TITLE, 2, CLEAR, DISPLAY)
         == IN_TITLE.(q := AddFrame(IN_TITLE.q, CLEAR, true, Some(2), DISPLAY), tracker := s, pending := 11)
  {
    TitleOpens();
    hide Run;
    s := Run(Osc, CLEAR);
  }

  /** The clear is put inside the string, the replay evicts it, and the repair is reported complete. */
  lemma ClearLostInSilence()
    ensures var r := Append(Empty(1000), TITLE);
      var (d, incomplete) := Resync(InTitle(), r, None, None);
      && !incomplete && d.droppedBytes == |CLEAR| && d.droppedEvents == 0 && d.q.controls == []
      && |d.q.binary| == 1 && d.q.binary[0].payload == TITLE
  {
    InTitleIs();
    TitleRing();
    var r := Append(Empty(1000), TITLE);
    OneFrame(r, 11);
    var s := ClearInTitle();
    hide InTitle, Append, ReplayFrames, Run;
    var c := PutData(IN_TITLE, 2, CLEAR, DISPLAY);
    var c0 := c.(tracker := Run(s, TITLE));
    TakesTheOnlyFrame(c0, 2);
    hide ShedFor;
    var d := PutData(c, 0, TITLE, REPLAY);
    assert d.droppedBytes == 11 && d.droppedEvents == 0 && d.q.controls == [] && |d.q.binary| == 1;
    hide PutData;
    var pieces := ReplayFrames(r, ReplayTarget(11));
    assert pieces[1..] == [];
    assert PutPieces(c, pieces, REPLAY) == d;
  }

  lemma TwoChunks()
    ensures Append(Append(Empty(1000), [ESC]), [68])
         == Ring(1000, [[ESC], [68]], [Esc, Outside], Outside, 2, 2)
  {
    EscapeOpens();
    hide Run;
    assert Append(Empty(1000), [ESC]) == Ring(1000, [[ESC]], [Esc], Esc, 1, 1);
  }

  lemma TwoPieces()
    ensures Since(Ring(1000, [[ESC], [68]], [Esc, Outside], Outside, 2, 2), 0)
         == Some([Piece(0, [ESC]), Piece(1, [68])])
  {
    var chunks: seq<bytes> := [[ESC], [68]];
    assert chunks[1..] == [[68]] && chunks[1..][1..] == [];
    var pieces := [Piece(0, [ESC]), Piece(1, [68])];
    assert Numbered([], 2) == [];
    assert Numbered([[68]], 1) == [Piece(1, [68])];
    assert Numbered(chunks, 0) == pieces;
    assert pieces[1..] == [Piece(1, [68])] && pieces[1..][1..] == [];
    assert From([], 0) == [];
    assert From([Piece(1, [68])], 0) == [Piece(1, [68])];
    assert From(pieces, 0) == pieces;
  }

  /** The resumed viewer is told its replay is whole, and adopts its end; the first byte of it was shed. */
  lemma ResumeLosesInSilence()
    ensures var r := Append(Append(Empty(1000), [ESC]), [68]);
      var d := AttachV2(Fresh(2, 512, 1), r, 0, Some(0), Some(0), None);
      && d.droppedBytes == 1 && d.droppedEvents == 0
      && |d.q.controls| == 1 && d.q.controls[0].msg == Attached(0, 2, 0, false, false, false)
      && |d.q.binary| == 1 && d.q.binary[0].at == Some(1) && d.q.binary[0].payload == [68]
  {
    TwoChunks();
    TwoPieces();
    LossInSilence(REPLAY);
    hide PutData, Append, Since, Clean, CutsInside;
    var c := Fresh(2, 512, 1);
    var pieces := [Piece(0, [ESC]), Piece(1, [68])];
    assert pieces[1..] == [Piece(1, [68])] && pieces[1..][1..] == [];
    var c1 := PutData(c, 0, [ESC], REPLAY);
    var c2 := PutData(c1, 1, [68], REPLAY);
    assert PutPieces(c2, [], REPLAY) == c2;
    assert PutPieces(c1, [Piece(1, [68])], REPLAY) == c2;
    assert PutPieces(c, pieces, REPLAY) == PutData(PutData(c, 0, [ESC], REPLAY), 1, [68], REPLAY);
    hide PutPieces;
  }
}
