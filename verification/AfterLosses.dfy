/**
  What holds over every run, whatever it loses; and what a repair makes of a
  world that such a run has led to.
*/
module AfterLosses {
  import opened Bytes
  import opened Ansi
  import opened Protocol
  import opened OutboundQueues
  import opened Fifo
  import opened ClientSpec
  import opened ClientRuns
  import opened SnapshotGroups
  import opened RingSpec
  import opened Replay
  import opened SessionSpec
  import opened Lossless
  import opened Viewer
  import opened Resume
  import opened Fidelity
  import opened Reports
  import opened Repair

  // ---------------------------------------------------------------------
  // What a client keeps
  // ---------------------------------------------------------------------

  /** No `attached` in the history of this connection names a later generation. */
  ghost predicate KnownGenerations(controls: seq<Control>, generation: int) {
    forall i :: 0 <= i < |controls| && controls[i].msg.Attached? ==> controls[i].msg.generation <= generation
  }

  /** Messages were queued, but no `attached` among them. */
  ghost predicate NoAttached(was: seq<Control>, now: seq<Control>) {
    && |was| <= |now| && now[..|was|] == was
    && forall i :: |was| <= i < |now| ==> !now[i].msg.Attached?
  }

  lemma NoAttachedKnown(was: seq<Control>, now: seq<Control>, generation: int)
    requires NoAttached(was, now) && KnownGenerations(was, generation)
    ensures KnownGenerations(now, generation)
  {
    assert forall i :: 0 <= i < |was| ==> now[i] == was[i];
  }

  ghost predicate Kept(c: Client, generation: int) {
    c.version == 2 && Proper(c) && NoneEmpty(c.q.binary) && KnownGenerations(c.q.controls, generation)
  }

  lemma KeptIsAttended(c: Client, generation: int)
    requires Kept(c, generation)
    ensures Attended(c) && Proper(c)
  {
    AtomicIsOrdered(c.q);
  }

  lemma AnnounceControls(c: Client)
    ensures NoAttached(c.q.controls, Announce(c).q.controls)
  {
  }

  lemma ShedForControls(c: Client, size: int)
    ensures NoAttached(c.q.controls, ShedFor(c, size).q.controls)
  {
    hide ShedLoop, Announce;
    var d := ShedLoop(c, size, false).0;
    ShedLoopEvicts(c, size, false);
    AnnounceControls(d.(droppedEvents := d.droppedEvents + 1));
  }

  lemma {:induction false} ChunksControls(c: Client, chunks: seq<bytes>, at: int, flags: Flags)
    ensures EnqueueChunks(c, chunks, at, flags).q.controls == c.q.controls
    decreases |chunks|
  {
    if chunks != [] {
      var f := if |chunks| == 1 then flags.(last := true) else flags;
      ChunksControls(Enqueue(c, chunks[0], false, Some(at), f), chunks[1..], at, flags);
    }
  }

  lemma PutControls(c: Client, at: int, payload: bytes, flags: Flags)
    requires c.version >= 2
    ensures NoAttached(c.q.controls, PutData(c, at, payload, flags).q.controls)
  {
    hide ShedFor, Announce, EnqueueChunks, Split, Run, NoAttached;
    SameControls(c.q.controls);
    if flags.snapshot {
      ShedForControls(c, |payload|);
      var c1 := ShedFor(c, |payload|);
      ChunksControls(c1.(pending := c1.pending + |payload|), Split(payload), at, flags);
    } else {
      var c0 := c.(tracker := Run(c.tracker, payload));
      ShedForControls(c0, |payload|);
      var c1 := c0.(droppedBytes := c.droppedBytes + |payload|, droppedEvents := c.droppedEvents + 1);
      AnnounceControls(c1);
      AnnounceControls(c1.(lostFrom := if c.lostFrom == None then Some(at) else c.lostFrom,
                           lostTo := Some(at + |payload|)));
    }
  }

  lemma SameControls(controls: seq<Control>)
    ensures NoAttached(controls, controls)
  {
  }

  lemma PutNoneEmpty(c: Client, at: int, payload: bytes, flags: Flags)
    requires c.version >= 2 && NoneEmpty(c.q.binary) && payload != []
    ensures NoneEmpty(PutData(c, at, payload, flags).q.binary)
  {
    hide ShedFor, Announce, EnqueueChunks, Split, Run;
    if flags.snapshot {
      ShedForShape(c, |payload|);
      var c1 := ShedFor(c, |payload|);
      var c2 := c1.(pending := c1.pending + |payload|);
      EnqueueChunksIs(c2, Split(payload), at, flags);
      ChunkFrameAt(c2.q.order, Split(payload), at, flags);
      SplitIsWhole(payload);
      hide ChunkFrames;
    } else {
      var c0 := c.(tracker := Run(c.tracker, payload));
      ShedForShape(c0, |payload|);
      var c1 := c0.(droppedBytes := c.droppedBytes + |payload|, droppedEvents := c.droppedEvents + 1);
      AnnounceShape(c1);
      AnnounceShape(c1.(lostFrom := if c.lostFrom == None then Some(at) else c.lostFrom,
                        lostTo := Some(at + |payload|)));
    }
  }

  lemma PutKept(c: Client, at: int, payload: bytes, flags: Flags, generation: int)
    requires Kept(c, generation) && payload != []
    ensures Kept(PutData(c, at, payload, flags), generation)
  {
    hide PutData, Proper, NoneEmpty, KnownGenerations, NoAttached;
    PutProper(c, at, payload, flags);
    PutNoneEmpty(c, at, payload, flags);
    PutControls(c, at, payload, flags);
    PutDataIdentity(c, at, payload, flags);
    NoAttachedKnown(c.q.controls, PutData(c, at, payload, flags).q.controls, generation);
  }

  lemma {:induction false} PiecesKept(c: Client, pieces: seq<Piece>, generation: int)
    requires Kept(c, generation) && forall i :: 0 <= i < |pieces| ==> |pieces[i].data| > 0
    ensures Kept(PutPieces(c, pieces, REPLAY), generation)
    decreases |pieces|
  {
    hide PutData, Kept;
    if pieces != [] {
      PutKept(c, pieces[0].at, pieces[0].data, REPLAY, generation);
      PiecesKept(PutData(c, pieces[0].at, pieces[0].data, REPLAY), pieces[1..], generation);
    }
  }

  lemma MessageKept(c: Client, msg: Msg, generation: int)
    requires Kept(c, generation) && (msg.Attached? ==> msg.generation <= generation)
    ensures Kept(PutControl(c, msg), generation)
  {
    hide Bounded, Atomic;
    DoBounded(c, PutMsgAct(msg));
    DoAtomic(c, PutMsgAct(msg));
  }

  lemma FreshKept(maxPending: int, budget: int, generation: int)
    ensures Kept(Fresh(2, maxPending, budget), generation)
  {
    EveryClient(2, maxPending, budget, []);
    EveryAtomic(2, maxPending, budget, []);
    hide Bounded, Atomic;
    assert RunActs(Fresh(2, maxPending, budget), []) == Fresh(2, maxPending, budget);
  }

  lemma ClearNonEmpty()
    ensures CLEAR != []
  {
  }

  lemma AttachKept(r: Ring, stream: bytes, generation: int, maxPending: int, budget: int,
                   last: Option<int>, theirs: Option<int>, snap: Option<bytes>)
    requires Tracks(r, stream, 0)
    ensures Kept(AttachV2(Fresh(2, maxPending, budget), r, generation, last, theirs, snap), generation)
  {
    hide PutData, Kept, Since, ReplayFrames, PutControl, PutPieces;
    var c := Fresh(2, maxPending, budget);
    FreshKept(maxPending, budget, generation);
    var resume := ResumeOk(r, generation, last, theirs);
    var (c1, applied) := if resume then (c, false) else OfferSnapshot(c, r.endSeq, snap);
    var c2 := c1;
    if resume {
      SinceIsExact(r, stream, 0, last.value);
      var pieces := Since(r, last.value).value;
      CoversNonEmpty(pieces, stream, last.value, |stream|);
      PiecesKept(c, pieces, generation);
      c2 := PutPieces(c, pieces, REPLAY);
    } else {
      if HasScreen(snap) { PutKept(c, r.endSeq, snap.value, SNAPSHOT, generation); }
      if !applied {
        RawKept(c1, r, stream, generation);
        c2 := RawReplay(c1, r);
      }
    }
    var incomplete := c2.droppedEvents > c1.droppedEvents;
    MessageKept(c2, Attached(generation, r.endSeq, Base(r), !resume, applied, incomplete), generation);
  }

  lemma RawKept(c: Client, r: Ring, stream: bytes, generation: int)
    requires Kept(c, generation) && Tracks(r, stream, 0)
    ensures Kept(RawReplay(c, r), generation)
  {
    hide PutData, Kept, ReplayFrames, PutPieces;
    ClearNonEmpty();
    PutKept(c, r.endSeq, CLEAR, DISPLAY, generation);
    ReplayIsWhole(r, stream, 0, ReplayTarget(c.maxBytes));
    var pieces := ReplayFrames(r, ReplayTarget(c.maxBytes));
    CoversNonEmpty(pieces, stream, Base(r), |stream|);
    PiecesKept(PutData(c, r.endSeq, CLEAR, DISPLAY), pieces, generation);
  }

  lemma ResyncKept(c: Client, r: Ring, stream: bytes, generation: int, last: Option<int>, snap: Option<bytes>)
    requires Kept(c, generation) && Tracks(r, stream, 0)
    ensures Kept(Resync(c, r, last, snap).0, generation)
  {
    hide PutData, Kept, ReplayFrames, PutPieces;
    if HasScreen(snap) { PutKept(c, r.endSeq, snap.value, SNAPSHOT, generation); }
    var (c1, applied) := OfferSnapshot(c, r.endSeq, snap);
    assert Kept(c1, generation);
    if !applied { RawKept(c1, r, stream, generation); }
  }

  lemma ShedKept(c: Client, target: int, generation: int)
    requires Kept(c, generation)
    ensures Kept(ShedOldest(c, target), generation)
  {
    hide Bounded, Atomic, ShedOldestLoop, Announce;
    DoBounded(c, ShedAct(target));
    DoAtomic(c, ShedAct(target));
    ShedOldestLoopEvicts(c, target);
    var d := ShedOldestLoop(c, target);
    AnnounceShape(d.(droppedEvents := d.droppedEvents + 1));
    AnnounceControls(d.(droppedEvents := d.droppedEvents + 1));
    NoAttachedKnown(d.q.controls, Announce(d.(droppedEvents := d.droppedEvents + 1)).q.controls, generation);
  }

  lemma SendKept(c: Client, generation: int)
    requires Kept(c, generation) && HasItems(c.q) && SendNext(c).1 != None
    ensures Kept(SendNext(c).0, generation)
  {
    hide Bounded, Atomic, ToWire;
    DoBounded(c, SendAct);
    DoAtomic(c, SendAct);
  }

  // ---------------------------------------------------------------------
  // What the world keeps
  // ---------------------------------------------------------------------

  ghost predicate Sound(w: World) {
    && RingKept(w) && w.maxBytes > 0
    && (w.cli.generation != None ==> w.cli.generation.value <= w.generation)
    && (w.conn != None ==> Kept(w.conn.value, w.generation))
  }

  lemma SoundRing(w: World)
    requires Sound(w)
    ensures Tracks(w.ring, w.stream, 0) && Shaped(w.ring) && w.maxBytes > 0
  {
  }

  /** The head of the line, if it is a message, is one of those queued on this connection. */
  lemma HeadKnown(c: Client, generation: int)
    requires Kept(c, generation) && HasItems(c.q) && !BinaryFirst(c.q)
    ensures c.q.control[0].msg.Attached? ==> c.q.control[0].msg.generation <= generation
  {
    AtomicIsOrdered(c.q);
    hide Atomic, Bounded;
    assert c.q.control[0] == c.q.controls[TakenControls(c.q)];
  }

  lemma BytesKeepGeneration(v: Cli, data: bytes)
    ensures OnBytes(v, data).generation == v.generation
  {
    hide DecodeData, FlagsOf;
  }

  lemma MessageGeneration(v: Cli, msg: Msg, generation: int)
    requires v.generation != None ==> v.generation.value <= generation
    requires msg.Attached? ==> msg.generation <= generation
    ensures var u := OnControl(v, msg);
      u.generation != None ==> u.generation.value <= generation
  {
  }

  lemma DeliverSound(w: World)
    requires Sound(w)
    ensures Sound(Step1(w, Deliver))
  {
    SoundRing(w);
    hide RingKept, Kept, OnControl, OnBytes, ToWire;
    if w.conn != None && HasItems(w.conn.value.q) && SendNext(w.conn.value).1 != None {
      var c := w.conn.value;
      SendKept(c, w.generation);
      if BinaryFirst(c.q) {
        WireOfFrame(c.q.binary[0]);
        BytesKeepGeneration(w.cli, ToWire(Next(c.q)).value.data);
      } else {
        HeadKnown(c, w.generation);
        ReceivesControl(c.q.control[0], w.cli);
        MessageGeneration(w.cli, c.q.control[0].msg, w.generation);
      }
    }
  }

  lemma WireOfFrame(f: Frame)
    ensures ToWire(Data(f)) != None ==> ToWire(Data(f)).value.Binary?
  {
  }

  lemma StepSound(w: World, step: Step)
    requires Shaped(w.ring) && Sound(w)
    ensures Sound(Step1(w, step))
  {
    hide Tracks, SafeHead, WithinBudget, Kept, PutData, AttachV2, SendNext, Append, PutControl;
    match step {
      case Emit(data) =>
        if data != [] {
          AppendKeeps(w.ring, w.stream, 0, data);
          if w.conn != None { PutKept(w.conn.value, w.ring.endSeq, data, LIVE, w.generation); }
        }
      case EmitMuted(data) =>
        if w.conn != None && data != [] { PutKept(w.conn.value, w.ring.endSeq, data, DISPLAY, w.generation); }
      case Connect(maxPending, budget, snap) =>
        AttachKept(w.ring, w.stream, w.generation, maxPending, budget, AttachSeq(w.cli), w.cli.generation, snap);
      case Deliver => DeliverSound(w);
      case Disconnect =>
      case Restart => EmptyTracks(w.maxBytes);
      case Notify(tag) => if w.conn != None { MessageKept(w.conn.value, Notice(tag), w.generation); }
    }
  }

  lemma ResynchroniseSound(w: World, last: Option<int>, snap: Option<bytes>)
    requires Sound(w) && w.conn != None
    ensures Sound(Resynchronise(w, last, snap))
  {
    SoundRing(w);
    hide RingKept, Kept, Resync, PutControl;
    ResyncKept(w.conn.value, w.ring, w.stream, w.generation, last, snap);
    var (d, incomplete) := Resync(w.conn.value, w.ring, last, snap);
    MessageKept(d, Resynced(w.ring.endSeq, incomplete), w.generation);
    SameRing(w, Resynchronise(w, last, snap));
  }

  lemma SameRing(w: World, u: World)
    requires RingKept(w) && u.ring == w.ring && u.stream == w.stream && u.maxBytes == w.maxBytes
    ensures RingKept(u)
  {
  }

  lemma HappensSound(w: World, e: Event)
    requires Shaped(w.ring) && Sound(w)
    ensures Sound(Happens(w, e))
  {
    hide Sound;
    match e {
      case Plain(step) => StepSound(w, step);
      case Mend(last, snap) => if w.conn != None { ResynchroniseSound(w, last, snap); }
      case GiveUp(target) => if w.conn != None { ShedSound(w, target); }
    }
  }

  lemma ShedSound(w: World, target: int)
    requires Shaped(w.ring) && Sound(w) && w.conn != None
    ensures Sound(Happens(w, GiveUp(target)))
  {
    hide RingKept, Kept, ShedOldest;
    ShedKept(w.conn.value, target, w.generation);
    SameRing(w, Happens(w, GiveUp(target)));
  }

  /** Over every run, whatever it loses: the ring, the line and the generations are in order. */
  lemma {:induction false} EveryHistory(maxBytes: int, events: seq<Event>)
    requires maxBytes > 0
    ensures Sound(History(maxBytes, events))
    decreases |events|
  {
    if events == [] {
      EmptyTracks(maxBytes);
    } else {
      hide Sound, Happens;
      EveryHistory(maxBytes, events[..|events| - 1]);
      HappensSound(History(maxBytes, events[..|events| - 1]), events[|events| - 1]);
    }
  }

  lemma {:induction false} PlaySound(w: World, steps: seq<Step>)
    requires Shaped(w.ring) && Sound(w)
    ensures Sound(Play(w, steps))
    decreases |steps|
  {
    hide Sound, Step1;
    if steps != [] {
      PlaySound(w, steps[..|steps| - 1]);
      StepSound(Play(w, steps[..|steps| - 1]), steps[|steps| - 1]);
    }
  }

  lemma SoundConn(w: World)
    requires Sound(w) && w.conn != None
    ensures RingKept(w) && Attended(w.conn.value) && Proper(w.conn.value)
  {
    KeptIsAttended(w.conn.value, w.generation);
  }

  lemma SoundGeneration(w: World)
    requires Sound(w)
    ensures w.cli.generation != None ==> w.cli.generation.value <= w.generation
  {
  }

  // ---------------------------------------------------------------------
  // After any losses
  // ---------------------------------------------------------------------

  /**
    After any run, whatever it has lost: if a repair is reported complete, and
    the report can be trusted, then once it has been delivered, with nothing lost
    since it was queued and a cursor not beyond it, the viewer is exact again,
    and stays so over every run without losses, whatever that run is.
  */
  lemma RepairedIsExact(maxBytes: int, events: seq<Event>, last: Option<int>, snap: Option<bytes>,
                        quiet: seq<Step>, onwards: seq<Step>)
    requires maxBytes > 0
    requires var w := History(maxBytes, events);
      w.conn != None && Trusted(w.conn.value, w.ring, last, snap)
    requires var w1 := Resynchronise(History(maxBytes, events), last, snap);
      && QuietRun(w1, quiet) && Deliveries(quiet) == |Waiting(w1.conn.value.q)| - 1
      && var u := Play(w1, quiet);
         && Step1(u, Deliver).conn != None
         && CursorBehind(u.cli, u.generation, |w1.stream|)
         && LosslessRun(Step1(u, Deliver), onwards)
    ensures
      var w1 := Resynchronise(History(maxBytes, events), last, snap);
      IsExact(Play(Step1(Play(w1, quiet), Deliver), onwards))
  {
    var w := History(maxBytes, events);
    EveryHistory(maxBytes, events);
    SoundRing(w);
    SoundConn(w);
    assert Repairable(w, last, snap);
    hide *;
    var w1 := Resynchronise(w, last, snap);
    ResynchroniseSound(w, last, snap);
    PlaySound(w1, quiet);
    SoundGeneration(Play(w1, quiet));
    RepairHolds(w, last, snap, quiet, onwards);
  }
}
