/** Every byte of the live stream that was evicted is named in a gap, or kept in the pending range. */
module GapCoverage {
  import opened Bytes
  import opened Ansi
  import opened Protocol
  import opened OutboundQueues
  import opened Fifo
  import opened ClientSpec
  import opened ClientRuns
  import opened SnapshotGroups

  /** A frame of the resumable stream. */
  predicate IsStream(f: Frame) {
    f.at != None && !f.flags.display && !f.flags.snapshot
  }

  function End(f: Frame): int
    requires f.at != None
  {
    f.at.value + |f.payload|
  }

  /** Sequenced frames only, and those of the stream in increasing, disjoint ranges. */
  ghost predicate Increasing(frames: seq<Frame>) {
    && (forall i :: 0 <= i < |frames| ==> frames[i].at != None && !frames[i].flags.snapshot)
    && (forall i, j :: 0 <= i < j < |frames| && IsStream(frames[i]) && IsStream(frames[j]) ==>
          End(frames[i]) <= frames[j].at.value)
  }

  ghost predicate InGap(f: Frame, m: Msg)
    requires f.at != None
  {
    m.Gap? && m.from <= f.at.value && End(f) <= m.to
  }

  ghost predicate Announced(f: Frame, controls: seq<Control>)
    requires f.at != None
  {
    exists j :: 0 <= j < |controls| && InGap(f, controls[j].msg)
  }

  ghost predicate InPending(f: Frame, from: Option<int>, to: Option<int>)
    requires f.at != None
  {
    from != None && to != None && from.value <= f.at.value && End(f) <= to.value
  }

  /** The pending range is a range, and what is still queued lies beyond it. */
  ghost predicate PendingOk(q: Queues, from: Option<int>, to: Option<int>)
    requires Increasing(q.frames)
  {
    && (from == None <==> to == None)
    && (from != None ==>
          && from.value <= to.value
          && forall i :: Taken(q) <= i < |q.frames| && 0 <= i && IsStream(q.frames[i])
              ==> to.value <= q.frames[i].at.value)
  }

  /** Every stream frame that was shed is announced or pending. */
  ghost predicate Covered(q: Queues, from: Option<int>, to: Option<int>) {
    forall i :: 0 <= i < |q.frames| && IsStream(q.frames[i]) && !Kept(q, i) ==>
      Announced(q.frames[i], q.controls) || InPending(q.frames[i], from, to)
  }

  /** The pending range does not reach beyond the stream frames fed so far. */
  ghost predicate PendingReached(frames: seq<Frame>, to: Option<int>) {
    to != None ==> exists i :: 0 <= i < |frames| && IsStream(frames[i]) && to.value <= End(frames[i])
  }

  ghost predicate ToldIn(q: Queues, from: Option<int>, to: Option<int>) {
    Increasing(q.frames) && PendingOk(q, from, to) && Covered(q, from, to) && PendingReached(q.frames, to)
  }

  ghost predicate Told(c: Client) {
    Ordered(c.q) && ToldIn(c.q, c.lostFrom, c.lostTo)
  }

  /** Evicting one frame puts it in the pending range, which keeps what it held. */
  lemma ShedOneTold(q: Queues, from: Option<int>, to: Option<int>)
    requires ToldIn(q, from, to) && Ordered(q) && q.binary != []
    ensures var f := q.binary[0];
      f.at != None &&
      if f.flags.display then ToldIn(Shed(q, 1), from, to)
      else ToldIn(Shed(q, 1), if from == None then f.at else from, Some(End(f)))
  {
    var t := Taken(q);
    var f := q.binary[0];
    assert f == q.frames[t];
    var d := Shed(q, 1);
    forall i | 0 <= i < |d.frames| && i != t ensures Kept(d, i) <==> Kept(q, i) {}
  }

  lemma DropFrameTold(c: Client)
    requires Told(c) && c.q.binary != []
    ensures Told(DropFrame(c))
  {
    hide Ordered, ToldIn;
    ShedKeepsOrder(c.q, 1);
    ShedOneTold(c.q, c.lostFrom, c.lostTo);
  }

  lemma {:induction false} DropLiveTold(c: Client)
    requires Told(c)
    ensures Told(DropLive(c).0)
    decreases |c.q.binary|
  {
    hide Told;
    if c.q.binary != [] {
      DropFrameTold(c);
      if c.q.binary[0].endsInside { DropLiveTold(DropFrame(c)); }
    }
  }

  lemma DropOldestTold(c: Client)
    requires Told(c)
    ensures Told(DropOldest(c).0)
  {
    if c.q.binary != [] {
      assert c.q.binary[0] == c.q.frames[Taken(c.q)];
      DropLiveTold(c);
    }
  }

  lemma {:induction false} ShedLoopTold(c: Client, size: int, shed: bool)
    requires Told(c)
    ensures Told(ShedLoop(c, size, shed).0)
    decreases |c.q.binary|
  {
    hide Told, DropOldest;
    if Over(c, size) {
      DropShrinks(c);
      DropOldestTold(c);
      if DropOldest(c).1 { ShedLoopTold(DropOldest(c).0, size, true); }
    }
  }

  lemma {:induction false} ShedOldestLoopTold(c: Client, target: int)
    requires Told(c)
    ensures Told(ShedOldestLoop(c, target))
    decreases |c.q.binary|
  {
    hide Told, DropOldest;
    if c.pending > 0 && target > 0 {
      DropShrinks(c);
      DropOldestTold(c);
      var (c1, ok) := DropOldest(c);
      if ok { ShedOldestLoopTold(c1, target - (c1.droppedBytes - c.droppedBytes)); }
    }
  }

  // ---------------------------------------------------------------------
  // Announcements
  // ---------------------------------------------------------------------

  lemma AnnouncedStays(f: Frame, controls: seq<Control>, m: Control)
    requires f.at != None
    ensures Announced(f, controls) ==> Announced(f, controls + [m])
    ensures InGap(f, m.msg) ==> Announced(f, controls + [m])
  {
    if Announced(f, controls) {
      var j :| 0 <= j < |controls| && InGap(f, controls[j].msg);
      assert (controls + [m])[j] == controls[j];
    }
    if InGap(f, m.msg) { assert (controls + [m])[|controls|] == m; }
  }

  lemma PutControlTold(c: Client, msg: Msg)
    requires Told(c)
    ensures Told(PutControl(c, msg))
  {
    hide Ordered, Announced;
    var d := PutControl(c, msg);
    AddControlKeepsOrder(c.q, msg);
    forall i | 0 <= i < |d.q.frames| && IsStream(d.q.frames[i]) && !Kept(d.q, i)
      ensures Announced(d.q.frames[i], d.q.controls) || InPending(d.q.frames[i], d.lostFrom, d.lostTo)
    {
      assert !Kept(c.q, i);
      AnnouncedStays(c.q.frames[i], c.q.controls, Control(c.q.order + 1, msg));
    }
  }

  /** A gap message takes over the pending range. */
  lemma GapTold(c: Client)
    requires Told(c) && c.lostFrom != None
    ensures Told(PutControl(c.(gapOpen := true, lostFrom := None, lostTo := None),
        Gap(c.lostFrom.value, c.lostTo.value)))
  {
    hide Ordered, Announced;
    var gap := Gap(c.lostFrom.value, c.lostTo.value);
    var d := PutControl(c.(gapOpen := true, lostFrom := None, lostTo := None), gap);
    AddControlKeepsOrder(c.q, gap);
    forall i | 0 <= i < |d.q.frames| && IsStream(d.q.frames[i]) && !Kept(d.q, i)
      ensures Announced(d.q.frames[i], d.q.controls)
    {
      assert !Kept(c.q, i);
      AnnouncedStays(c.q.frames[i], c.q.controls, Control(c.q.order + 1, gap));
    }
  }

  lemma AnnounceTold(c: Client)
    requires Told(c)
    ensures Told(Announce(c))
  {
    var c1 := c;
    if c.version >= 2 && c.lostFrom != None && !c.gapOpen {
      GapTold(c);
      c1 := PutControl(c.(gapOpen := true, lostFrom := None, lostTo := None), Gap(c.lostFrom.value, c.lostTo.value));
    }
    assert Told(c1);
    if !c1.noticeOpen {
      ToldIgnoresFlags(c1, c1.(noticeOpen := true));
      PutControlTold(c1.(noticeOpen := true), Desync);
    }
  }

  lemma ToldIgnoresFlags(c: Client, d: Client)
    requires Told(c) && d.q == c.q && d.lostFrom == c.lostFrom && d.lostTo == c.lostTo
    ensures Told(d)
  {
  }

  lemma ShedForTold(c: Client, size: int)
    requires Told(c)
    ensures Told(ShedFor(c, size))
  {
    hide Told, ShedLoop, Announce;
    var d := ShedLoop(c, size, false).0;
    ShedLoopTold(c, size, false);
    ToldIgnoresFlags(d, d.(droppedEvents := d.droppedEvents + 1));
    AnnounceTold(d.(droppedEvents := d.droppedEvents + 1));
  }

  // ---------------------------------------------------------------------
  // Runs of live output
  // ---------------------------------------------------------------------

  /** The offset lies at or beyond the end of all stream frames so far. */
  ghost predicate Follows(frames: seq<Frame>, at: int) {
    forall i :: 0 <= i < |frames| && IsStream(frames[i]) ==> End(frames[i]) <= at
  }

  /** Live output with increasing offsets, each frame within the budget; no snapshots, no raw bytes. */
  ghost predicate LiveAct(c: Client, act: Act) {
    match act
    case PutDataAct(at, payload, flags) =>
      !flags.snapshot && Fits(c, payload) && (!flags.display ==> Follows(c.q.frames, at))
    case PutBytesAct(_) => false
    case _ => true
  }

  ghost predicate LiveRun(c: Client, acts: seq<Act>) {
    acts == []
    || (LiveRun(c, acts[..|acts| - 1]) && LiveAct(RunActs(c, acts[..|acts| - 1]), acts[|acts| - 1]))
  }

  lemma AddFrameToldIn(q: Queues, from: Option<int>, to: Option<int>, payload: bytes, endsInside: bool, at: int,
      flags: Flags)
    requires ToldIn(q, from, to) && Suffixes(q) && !flags.snapshot && (!flags.display ==> Follows(q.frames, at))
    ensures ToldIn(AddFrame(q, payload, endsInside, Some(at), flags), from, to)
  {
    var d := AddFrame(q, payload, endsInside, Some(at), flags);
    hide Announced;
    assert forall i :: 0 <= i < |q.frames| ==> d.frames[i] == q.frames[i];
    assert Increasing(d.frames);
    if to != None {
      var i :| 0 <= i < |q.frames| && IsStream(q.frames[i]) && to.value <= End(q.frames[i]);
      assert IsStream(d.frames[i]);
    }
    forall i | 0 <= i < |q.frames| ensures Kept(d, i) <==> Kept(q, i) {}
    hide Kept;
    assert Covered(d, from, to);
  }

  lemma OrderedSuffixes(q: Queues)
    requires Ordered(q)
    ensures Suffixes(q)
  {
  }

  lemma AddFrameTold(c: Client, payload: bytes, endsInside: bool, at: int, flags: Flags)
    requires Told(c) && !flags.snapshot && (!flags.display ==> Follows(c.q.frames, at))
    ensures Told(Enqueue(c, payload, endsInside, Some(at), flags))
  {
    hide Ordered, ToldIn, Follows;
    OrderedSuffixes(c.q);
    AddFrameKeepsOrder(c.q, payload, endsInside, Some(at), flags);
    AddFrameToldIn(c.q, c.lostFrom, c.lostTo, payload, endsInside, at, flags);
  }

  lemma FittingTold(c: Client, payload: bytes, at: int, flags: Flags)
    requires Told(c) && !flags.snapshot && (!flags.display ==> Follows(c.q.frames, at))
    ensures Told(PutFitting(c, payload, Some(at), flags))
  {
    hide Told, ShedFor, Follows;
    var s := Run(c.tracker, payload);
    var c0 := c.(tracker := s);
    ToldIgnoresFlags(c, c0);
    ShedForTold(c0, |payload|);
    ShedForShape(c0, |payload|);
    var c1 := ShedFor(c0, |payload|);
    ToldIgnoresFlags(c1, c1.(pending := c1.pending + |payload|));
    AddFrameTold(c1.(pending := c1.pending + |payload|), payload, s != Outside, at, flags);
  }

  lemma TakeToldIn(q: Queues, from: Option<int>, to: Option<int>)
    requires Ordered(q) && ToldIn(q, from, to) && HasItems(q)
    ensures ToldIn(Take(q), from, to)
  {
    TakeKeepsKept(q);
    hide Ordered, Announced, Kept;
  }

  lemma TakeTold(c: Client)
    requires Told(c) && HasItems(c.q)
    ensures Told(TakeNext(c))
  {
    hide Ordered, ToldIn;
    TakeIsDequeue(c.q);
    TakeToldIn(c.q, c.lostFrom, c.lostTo);
  }

  lemma DoTold(c: Client, act: Act)
    requires Told(c) && c.version >= 2 && LiveAct(c, act)
    ensures Told(Do(c, act)) && Do(c, act).version >= 2
  {
    hide Told, PutFitting, ShedOldestLoop, Announce, ToWire, TakeNext, Follows;
    match act {
      case PutDataAct(at, payload, flags) =>
        FittingTold(c, payload, at, flags);
        FittingVersion(c, payload, Some(at), flags);
      case PutMsgAct(msg) => PutControlTold(c, msg);
      case ShedAct(target) =>
        var d := ShedOldestLoop(c, target);
        ShedOldestLoopTold(c, target);
        ShedOldestLoopEvicts(c, target);
        ToldIgnoresFlags(d, d.(droppedEvents := d.droppedEvents + 1));
        AnnounceTold(d.(droppedEvents := d.droppedEvents + 1));
        AnnounceShape(d.(droppedEvents := d.droppedEvents + 1));
      case SendAct =>
        if HasItems(c.q) {
          var d := TakeNext(c);
          TakeTold(c);
          TakeVersion(c);
          ToldIgnoresFlags(d, SendNext(c).0);
        }
      case CloseAct => ToldIgnoresFlags(c, c.(closed := true));
    }
  }

  lemma FittingVersion(c: Client, payload: bytes, at: Option<int>, flags: Flags)
    ensures PutFitting(c, payload, at, flags).version == c.version
  {
    hide ShedFor;
    ShedForShape(c.(tracker := Run(c.tracker, payload)), |payload|);
  }

  lemma TakeVersion(c: Client)
    requires HasItems(c.q)
    ensures TakeNext(c).version == c.version
  {
  }

  /**
    Over every run of live output, each stream frame that was evicted lies in a
    gap that was announced, or in the range waiting to be announced.
  */
  lemma {:induction false} EveryLossIsTold(version: int, maxPending: int, maxBytes: int, acts: seq<Act>)
    requires version >= 2 && LiveRun(Fresh(version, maxPending, maxBytes), acts)
    ensures var c := RunActs(Fresh(version, maxPending, maxBytes), acts);
      Told(c) && c.version >= 2
    decreases |acts|
  {
    hide Do, LiveAct;
    if acts != [] {
      EveryLossIsTold(version, maxPending, maxBytes, acts[..|acts| - 1]);
      hide Told;
      DoTold(RunActs(Fresh(version, maxPending, maxBytes), acts[..|acts| - 1]), acts[|acts| - 1]);
    }
  }
}
