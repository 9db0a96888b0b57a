/** Even when frames are shed, those that are sent are true to the stream. */
module Fidelity {
  import opened Bytes
  import opened Ansi
  import opened Protocol
  import opened OutboundQueues
  import opened Fifo
  import opened ClientSpec
  import opened ClientRuns
  import opened GapCoverage
  import opened SnapshotGroups
  import opened RingSpec
  import opened Replay
  import opened SessionSpec
  import opened Viewer
  import opened Resume

  /** Each frame of the resumable stream carries exactly the bytes at its offset. */
  ghost predicate TrueFrames(frames: seq<Frame>, stream: bytes) {
    forall i :: 0 <= i < |frames| && IsStream(frames[i]) ==> IsTrue(frames[i], stream)
  }

  ghost predicate IsTrue(f: Frame, stream: bytes)
    requires f.at != None
  {
    var a, n := f.at.value, |f.payload|;
    0 <= a && a + n <= |stream| && f.payload == stream[a..a + n]
  }

  /** `more` is `frames` with nothing new but this frame, or chunks of a snapshot. */
  ghost predicate Extends(frames: seq<Frame>, more: seq<Frame>, at: int, payload: bytes, flags: Flags) {
    && |frames| <= |more| && more[..|frames|] == frames
    && forall i :: |frames| <= i < |more| ==> more[i].flags.snapshot || Carries(more[i], at, payload, flags)
  }

  lemma SnapshotExtends(c: Client, at: int, payload: bytes, flags: Flags)
    requires flags.snapshot
    ensures var d := QueueSnapshot(c, at, payload, flags);
      Extends(c.q.frames, d.q.frames, at, payload, flags) && d.version == c.version
  {
    hide ShedFor, EnqueueChunks, Split;
    ShedForShape(c, |payload|);
    var c1 := ShedFor(c, |payload|);
    var c2 := c1.(pending := c1.pending + |payload|);
    EnqueueChunksIs(c2, Split(payload), at, flags);
    EnqueueChunksCounts(c2, Split(payload), at, flags);
    ChunkFrameAt(c2.q.order, Split(payload), at, flags);
    hide ChunkFrames, Announce;
  }

  lemma PutDataExtends(c: Client, at: int, payload: bytes, flags: Flags)
    requires c.version >= 2
    ensures var d := PutData(c, at, payload, flags);
      Extends(c.q.frames, d.q.frames, at, payload, flags) && d.version == c.version
  {
    hide ShedFor, Announce, QueueSnapshot, Run;
    if flags.snapshot {
      SnapshotExtends(c, at, payload, flags);
    } else {
      var c0 := c.(tracker := Run(c.tracker, payload));
      ShedForShape(c0, |payload|);
      var c1 := c0.(droppedBytes := c.droppedBytes + |payload|, droppedEvents := c.droppedEvents + 1);
      AnnounceShape(c1);
      AnnounceShape(c1.(lostFrom := if c.lostFrom == None then Some(at) else c.lostFrom,
                        lostTo := Some(at + |payload|)));
    }
  }

  lemma TrueStays(frames: seq<Frame>, more: seq<Frame>, at: int, payload: bytes, flags: Flags, stream: bytes)
    requires TrueFrames(frames, stream) && Extends(frames, more, at, payload, flags)
    requires !flags.display && !flags.snapshot ==>
      0 <= at && at + |payload| <= |stream| && payload == stream[at..at + |payload|]
    ensures TrueFrames(more, stream)
  {
    forall i | 0 <= i < |more| && IsStream(more[i]) ensures IsTrue(more[i], stream) {
      if i < |frames| { assert more[i] == frames[i]; }
    }
  }

  lemma TrueLonger(frames: seq<Frame>, stream: bytes, more: bytes)
    requires TrueFrames(frames, stream)
    ensures TrueFrames(frames, stream + more)
  {
    forall i | 0 <= i < |frames| && IsStream(frames[i]) ensures IsTrue(frames[i], stream + more) {
      var a, n := frames[i].at.value, |frames[i].payload|;
      assert (stream + more)[a..a + n] == stream[a..a + n];
    }
  }

  /** What the line of one connection keeps whatever is shed. */
  ghost predicate GoodLine(c: Client, stream: bytes) {
    c.version >= 2 && Ordered(c.q) && TrueFrames(c.q.frames, stream)
  }

  lemma PutGood(c: Client, at: int, payload: bytes, flags: Flags, stream: bytes)
    requires GoodLine(c, stream)
    requires !flags.display && !flags.snapshot ==>
      0 <= at && at + |payload| <= |stream| && payload == stream[at..at + |payload|]
    ensures GoodLine(PutData(c, at, payload, flags), stream)
  {
    hide PutData, TrueFrames, Extends, Ordered;
    PutDataExtends(c, at, payload, flags);
    PutDataOrdered(c, at, payload, flags);
    TrueStays(c.q.frames, PutData(c, at, payload, flags).q.frames, at, payload, flags, stream);
  }

  lemma {:induction false} PiecesGood(c: Client, pieces: seq<Piece>, stream: bytes, from: int, to: int)
    requires GoodLine(c, stream) && Covers(pieces, stream, from, to)
    ensures GoodLine(PutPieces(c, pieces, REPLAY), stream)
    decreases |pieces|
  {
    hide PutData, GoodLine;
    if pieces != [] {
      PutGood(c, pieces[0].at, pieces[0].data, REPLAY, stream);
      PiecesGood(PutData(c, pieces[0].at, pieces[0].data, REPLAY), pieces[1..], stream, from + |pieces[0].data|, to);
    }
  }

  lemma ControlGood(c: Client, msg: Msg, stream: bytes)
    requires GoodLine(c, stream)
    ensures GoodLine(PutControl(c, msg), stream)
  {
    hide Ordered, TrueFrames;
    AddControlKeepsOrder(c.q, msg);
  }

  lemma FreshGood(maxPending: int, budget: int, stream: bytes)
    ensures GoodLine(Fresh(2, maxPending, budget), stream)
  {
  }

  lemma AttachGood(r: Ring, stream: bytes, generation: int, maxPending: int, budget: int,
                   last: Option<int>, theirs: Option<int>, snap: Option<bytes>)
    requires Tracks(r, stream, 0)
    ensures GoodLine(AttachV2(Fresh(2, maxPending, budget), r, generation, last, theirs, snap), stream)
  {
    hide PutData, GoodLine, Since, ReplayFrames, PutControl, PutPieces;
    var c := Fresh(2, maxPending, budget);
    FreshGood(maxPending, budget, stream);
    var resume := ResumeOk(r, generation, last, theirs);
    var (c1, applied) := if resume then (c, false) else OfferSnapshot(c, r.endSeq, snap);
    var c2 := c1;
    if resume {
      SinceIsExact(r, stream, 0, last.value);
      PiecesGood(c, Since(r, last.value).value, stream, last.value, |stream|);
      c2 := PutPieces(c, Since(r, last.value).value, REPLAY);
    } else {
      if HasScreen(snap) { PutGood(c, r.endSeq, snap.value, SNAPSHOT, stream); }
      assert GoodLine(c1, stream);
      if !applied {
        PutGood(c1, r.endSeq, CLEAR, DISPLAY, stream);
        ReplayIsWhole(r, stream, 0, ReplayTarget(c1.maxBytes));
        PiecesGood(PutData(c1, r.endSeq, CLEAR, DISPLAY), ReplayFrames(r, ReplayTarget(c1.maxBytes)), stream,
            Base(r), |stream|);
        c2 := RawReplay(c1, r);
      }
    }
    ControlGood(c2, Attached(generation, r.endSeq, Base(r), !resume, applied, c2.droppedEvents > c1.droppedEvents),
        stream);
  }

  // ---------------------------------------------------------------------
  // Every run, with or without losses
  // ---------------------------------------------------------------------

  /** What can happen when frames are lost: a viewer is repaired, and a session over its memory cap sheds. */
  datatype Event = Plain(step: Step) | Mend(last: Option<int>, snap: Option<bytes>) | GiveUp(target: int)

  /** The session repairs its viewer, and says so; what was lost before is written off. */
  function Resynchronise(w: World, last: Option<int>, snap: Option<bytes>): (w': World)
    requires w.conn != None
    ensures w'.conn != None && w' == w.(conn := w'.conn, refused := w'.refused)
  {
    var (d, incomplete) := Resync(w.conn.value, w.ring, last, snap);
    w.(conn := Some(PutControl(d, Resynced(w.ring.endSeq, incomplete))), refused := d.droppedBytes)
  }

  function Happens(w: World, e: Event): (w': World)
    requires Shaped(w.ring)
    ensures Shaped(w'.ring)
  {
    match e
    case Plain(step) => Step1(w, step)
    case Mend(last, snap) => if w.conn == None then w else Resynchronise(w, last, snap)
    case GiveUp(target) => if w.conn == None then w else w.(conn := Some(ShedOldest(w.conn.value, target)))
  }

  /** The world after these events. */
  function History(maxBytes: int, events: seq<Event>): (w: World)
    ensures Shaped(w.ring)
  {
    if events == [] then Begin(maxBytes) else Happens(History(maxBytes, events[..|events| - 1]), events[|events| - 1])
  }

  ghost predicate Faithful(w: World) {
    && Tracks(w.ring, w.stream, 0) && SafeHead(w.ring, w.stream, 0) && WithinBudget(w.ring)
    && w.ring.maxBytes == w.maxBytes
    && (w.conn != None ==> GoodLine(w.conn.value, w.stream))
  }

  lemma EmitFaithful(w: World, data: bytes)
    requires Faithful(w) && data != []
    ensures Faithful(Step1(w, Emit(data)))
  {
    hide WithinBudget, SafeHead, Append, PutData, Ordered, TrueFrames;
    AppendKeeps(w.ring, w.stream, 0, data);
    if w.conn != None {
      var c := w.conn.value;
      TrueLonger(c.q.frames, w.stream, data);
      assert (w.stream + data)[|w.stream|..|w.stream| + |data|] == data;
      PutGood(c, |w.stream|, data, LIVE, w.stream + data);
    }
  }

  lemma DeliverFaithful(w: World)
    requires Faithful(w)
    ensures Faithful(Step1(w, Deliver))
  {
    hide Tracks, WithinBudget, SafeHead, Ordered, TrueFrames, ToWire, Receive;
    if w.conn != None && HasItems(w.conn.value.q) { TakeIsDequeue(w.conn.value.q); }
  }

  lemma StepFaithful(w: World, step: Step)
    requires Faithful(w) && w.maxBytes > 0
    ensures Faithful(Step1(w, step))
  {
    hide Tracks, WithinBudget, SafeHead, GoodLine, PutData, AttachV2, SendNext, Append, PutControl;
    match step {
      case Emit(data) => if data != [] { EmitFaithful(w, data); }
      case EmitMuted(data) =>
        if w.conn != None { PutGood(w.conn.value, w.ring.endSeq, data, DISPLAY, w.stream); }
      case Connect(maxPending, budget, snap) =>
        AttachGood(w.ring, w.stream, w.generation, maxPending, budget, AttachSeq(w.cli), w.cli.generation, snap);
      case Deliver => DeliverFaithful(w);
      case Disconnect =>
      case Restart => EmptyTracks(w.maxBytes);
      case Notify(tag) => if w.conn != None { ControlGood(w.conn.value, Notice(tag), w.stream); }
    }
  }

  lemma EmptyTracks(maxBytes: int)
    requires maxBytes > 0
    ensures Tracks(Empty(maxBytes), [], 0) && SafeHead(Empty(maxBytes), [], 0) && WithinBudget(Empty(maxBytes))
  {
  }

  lemma ResyncGood(c: Client, r: Ring, stream: bytes, last: Option<int>, snap: Option<bytes>)
    requires GoodLine(c, stream) && Tracks(r, stream, 0)
    ensures GoodLine(Resync(c, r, last, snap).0, stream)
  {
    hide PutData, GoodLine, ReplayFrames, PutPieces;
    if HasScreen(snap) { PutGood(c, r.endSeq, snap.value, SNAPSHOT, stream); }
    var (c1, applied) := OfferSnapshot(c, r.endSeq, snap);
    assert GoodLine(c1, stream);
    if !applied {
      PutGood(c1, r.endSeq, CLEAR, DISPLAY, stream);
      ReplayIsWhole(r, stream, 0, ReplayTarget(c1.maxBytes));
      PiecesGood(PutData(c1, r.endSeq, CLEAR, DISPLAY), ReplayFrames(r, ReplayTarget(c1.maxBytes)), stream, Base(r),
          |stream|);
    }
  }

  lemma ShedGood(c: Client, target: int, stream: bytes)
    requires GoodLine(c, stream)
    ensures GoodLine(ShedOldest(c, target), stream)
  {
    hide Ordered, TrueFrames, ShedOldestLoop, Announce;
    ShedOldestLoopEvicts(c, target);
    var d := ShedOldestLoop(c, target);
    AnnounceShape(d.(droppedEvents := d.droppedEvents + 1));
    DoOrdered(c, ShedAct(target));
  }

  lemma HappensFaithful(w: World, e: Event)
    requires Faithful(w) && w.maxBytes > 0
    ensures Faithful(Happens(w, e)) && Happens(w, e).maxBytes == w.maxBytes
  {
    match e {
      case Plain(step) =>
        hide Faithful, Step1;
        StepFaithful(w, step);
        StepBudget(w, step);
      case Mend(last, snap) =>
        hide Tracks, SafeHead, WithinBudget, GoodLine, Resync, PutControl;
        if w.conn != None {
          ResyncGood(w.conn.value, w.ring, w.stream, last, snap);
          var (d, incomplete) := Resync(w.conn.value, w.ring, last, snap);
          ControlGood(d, Resynced(w.ring.endSeq, incomplete), w.stream);
        }
      case GiveUp(target) =>
        hide Tracks, SafeHead, WithinBudget, GoodLine, ShedOldest;
        if w.conn != None { ShedGood(w.conn.value, target, w.stream); }
    }
  }

  /** Over every run, whatever it loses, the ring is the window of the stream and every frame queued is true to it. */
  lemma {:induction false} EveryLineIsFaithful(maxBytes: int, events: seq<Event>)
    requires maxBytes > 0
    ensures Faithful(History(maxBytes, events)) && History(maxBytes, events).maxBytes == maxBytes
    decreases |events|
  {
    hide Faithful, Happens;
    if events == [] {
      BeginFaithful(maxBytes);
    } else {
      EveryLineIsFaithful(maxBytes, events[..|events| - 1]);
      HappensFaithful(History(maxBytes, events[..|events| - 1]), events[|events| - 1]);
    }
  }

  lemma BeginFaithful(maxBytes: int)
    requires maxBytes > 0
    ensures Faithful(Begin(maxBytes))
  {
    EmptyTracks(maxBytes);
  }

  /**
    Whatever has been shed, the next binary message decodes to a frame of the
    viewer's own stream: its payload is the stream's bytes at its offset.
  */
  lemma WireIsTrue(maxBytes: int, events: seq<Event>)
    requires maxBytes > 0
    requires var w := History(maxBytes, events);
      w.conn != None && BinaryFirst(w.conn.value.q) && IsStream(w.conn.value.q.binary[0])
      && ToWire(Next(w.conn.value.q)) != None
    ensures
      var w := History(maxBytes, events);
      var wire := ToWire(Next(w.conn.value.q)).value;
      && wire.Binary? && DecodeData(wire.data).Ok?
      && var d := DecodeData(wire.data).value;
         && 0 <= d.at && d.at + |d.payload| <= |w.stream|
         && d.payload == w.stream[d.at..d.at + |d.payload|]
  {
    hide History, Tracks, WithinBudget, SafeHead;
    EveryLineIsFaithful(maxBytes, events);
    var w := History(maxBytes, events);
    var q := w.conn.value.q;
    var f := q.binary[0];
    OrderedSuffixes(q);
    assert f == q.frames[Taken(q)];
    assert IsTrue(f, w.stream);
    hide Ordered, TrueFrames;
    DataRoundTrip(f.at.value, f.payload, FlagBits(f.flags));
    hide EncodeData, DecodeData, FlagBits;
  }
}
