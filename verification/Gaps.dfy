/** What a gap message says: no more than what was lost, and once in a burst. */
module Gaps {
  import opened Bytes
  import opened Ansi
  import opened Protocol
  import opened OutboundQueues
  import opened ClientSpec
  import opened ClientRuns
  import opened SnapshotGroups
  import opened GapCoverage

  // ---------------------------------------------------------------------
  // No more than what was lost
  // ---------------------------------------------------------------------

  /** A frame of the stream that was evicted. */
  ghost predicate Lost(q: Queues, i: int) {
    0 <= i < |q.frames| && IsStream(q.frames[i]) && !Kept(q, i)
  }

  /** A lost frame begins at `x`. */
  ghost predicate BeginsLost(q: Queues, x: int) {
    exists i :: Lost(q, i) && q.frames[i].at.value == x
  }

  /** A lost frame ends at `x`. */
  ghost predicate EndsLost(q: Queues, x: int) {
    exists i :: Lost(q, i) && End(q.frames[i]) == x
  }

  /** The pending range and every gap begin with a lost frame and end with one. */
  ghost predicate TightIn(q: Queues, from: Option<int>, to: Option<int>) {
    && (from != None ==> BeginsLost(q, from.value))
    && (to != None ==> EndsLost(q, to.value))
    && forall j :: 0 <= j < |q.controls| && q.controls[j].msg.Gap? ==>
         BeginsLost(q, q.controls[j].msg.from) && EndsLost(q, q.controls[j].msg.to)
  }

  ghost predicate Tight(c: Client) {
    Told(c) && TightIn(c.q, c.lostFrom, c.lostTo)
  }

  /** What is lost in `q` is lost in `d`, which has the same messages. */
  ghost predicate KeepsLost(q: Queues, d: Queues) {
    && d.controls == q.controls && |q.frames| <= |d.frames|
    && forall i :: Lost(q, i) ==> Lost(d, i) && d.frames[i] == q.frames[i]
  }

  lemma LostStays(q: Queues, d: Queues, x: int)
    requires KeepsLost(q, d)
    ensures BeginsLost(q, x) ==> BeginsLost(d, x)
    ensures EndsLost(q, x) ==> EndsLost(d, x)
  {
  }

  lemma KeepsLostTight(q: Queues, d: Queues, from: Option<int>, to: Option<int>)
    requires TightIn(q, from, to) && KeepsLost(q, d)
    ensures TightIn(d, from, to)
  {
    forall x ensures (BeginsLost(q, x) ==> BeginsLost(d, x)) && (EndsLost(q, x) ==> EndsLost(d, x)) {
      LostStays(q, d, x);
    }
    hide BeginsLost, EndsLost;
  }

  lemma ShedKeepsLost(q: Queues, n: nat)
    requires Ordered(q) && n <= |q.binary|
    ensures KeepsLost(q, Shed(q, n))
  {
  }

  lemma HeadIsLost(q: Queues)
    requires Ordered(q) && q.binary != [] && IsStream(q.binary[0])
    ensures var d := Shed(q, 1); BeginsLost(d, q.binary[0].at.value) && EndsLost(d, End(q.binary[0]))
  {
    var d, t := Shed(q, 1), Taken(q);
    assert q.frames[t] == q.binary[0];
    HeadNotSent(q);
    assert Lost(d, t);
  }

  lemma HeadNotSent(q: Queues)
    requires Ordered(q) && q.binary != []
    ensures !IsSent(q, Taken(q))
  {
    assert q.frames[Taken(q)] == q.binary[0];
  }

  lemma ShedOneTight(q: Queues, from: Option<int>, to: Option<int>)
    requires Ordered(q) && TightIn(q, from, to) && q.binary != []
    requires q.binary[0].at != None && !q.binary[0].flags.snapshot
    ensures var f := q.binary[0];
      if f.flags.display then TightIn(Shed(q, 1), from, to)
      else TightIn(Shed(q, 1), if from == None then f.at else from, Some(End(f)))
  {
    ShedKeepsLost(q, 1);
    KeepsLostTight(q, Shed(q, 1), from, to);
    if IsStream(q.binary[0]) { HeadIsLost(q); }
    hide BeginsLost, EndsLost;
  }

  lemma DropFrameTight(c: Client)
    requires Tight(c) && c.q.binary != []
    ensures Tight(DropFrame(c))
  {
    hide TightIn, Told, Ordered;
    DropFrameTold(c);
    HeadIsSequenced(c);
    ToldSuffixes(c);
    ShedOneTight(c.q, c.lostFrom, c.lostTo);
  }

  lemma HeadIsSequenced(c: Client)
    requires Told(c) && c.q.binary != []
    ensures c.q.binary[0].at != None && !c.q.binary[0].flags.snapshot
  {
    assert c.q.binary[0] == c.q.frames[Taken(c.q)];
  }

  lemma {:induction false} DropLiveTight(c: Client)
    requires Tight(c)
    ensures Tight(DropLive(c).0)
    decreases |c.q.binary|
  {
    hide Tight;
    if c.q.binary != [] {
      DropFrameTight(c);
      if c.q.binary[0].endsInside { DropLiveTight(DropFrame(c)); }
    }
  }

  lemma DropOldestTight(c: Client)
    requires Tight(c)
    ensures Tight(DropOldest(c).0)
  {
    if c.q.binary != [] {
      HeadIsSequenced(c);
      DropLiveTight(c);
      hide Tight;
    }
  }

  lemma {:induction false} ShedLoopTight(c: Client, size: int, shed: bool)
    requires Tight(c)
    ensures Tight(ShedLoop(c, size, shed).0)
    decreases |c.q.binary|
  {
    hide Tight, DropOldest;
    if Over(c, size) {
      DropShrinks(c);
      DropOldestTight(c);
      if DropOldest(c).1 { ShedLoopTight(DropOldest(c).0, size, true); }
    }
  }

  lemma {:induction false} ShedOldestLoopTight(c: Client, target: int)
    requires Tight(c)
    ensures Tight(ShedOldestLoop(c, target))
    decreases |c.q.binary|
  {
    hide Tight, DropOldest;
    if c.pending > 0 && target > 0 {
      DropShrinks(c);
      DropOldestTight(c);
      var (c1, ok) := DropOldest(c);
      if ok { ShedOldestLoopTight(c1, target - (c1.droppedBytes - c.droppedBytes)); }
    }
  }

  /** One message more; a gap has to be the pending range. */
  lemma MessageTight(q: Queues, msg: Msg, from: Option<int>, to: Option<int>)
    requires TightIn(q, from, to)
    requires msg.Gap? ==> from == Some(msg.from) && to == Some(msg.to)
    ensures TightIn(AddControl(q, msg), from, to)
    ensures TightIn(AddControl(q, msg), None, None)
  {
    var d := AddControl(q, msg);
    forall x ensures BeginsLost(d, x) == BeginsLost(q, x) && EndsLost(d, x) == EndsLost(q, x) {
      SameLost(q, d, x);
    }
    hide BeginsLost, EndsLost;
  }

  lemma SameLost(q: Queues, d: Queues, x: int)
    requires d.frames == q.frames && d.binary == q.binary && d.sent == q.sent
    ensures BeginsLost(d, x) == BeginsLost(q, x) && EndsLost(d, x) == EndsLost(q, x)
  {
    forall i ensures Lost(d, i) == Lost(q, i) {
    }
    hide Lost;
    assert Taken(d) == Taken(q);
  }

  lemma PutMessageTight(c: Client, msg: Msg)
    requires Tight(c) && !msg.Gap?
    ensures Tight(PutControl(c, msg))
  {
    PutControlTold(c, msg);
    hide TightIn, Told;
    MessageTight(c.q, msg, c.lostFrom, c.lostTo);
  }

  lemma TightIgnoresFlags(c: Client, d: Client)
    requires Tight(c) && d.q == c.q && d.lostFrom == c.lostFrom && d.lostTo == c.lostTo
    ensures Tight(d)
  {
    ToldIgnoresFlags(c, d);
  }

  lemma AnnounceTight(c: Client)
    requires Tight(c)
    ensures Tight(Announce(c))
  {
    var c1 := c;
    AnnounceTold(c);
    if c.version >= 2 && c.lostFrom != None && !c.gapOpen {
      GapTold(c);
      var gap := Gap(c.lostFrom.value, c.lostTo.value);
      c1 := PutControl(c.(gapOpen := true, lostFrom := None, lostTo := None), gap);
      hide TightIn;
      MessageTight(c.q, gap, c.lostFrom, c.lostTo);
      assert Tight(c1);
    }
    hide Tight, Told;
    if !c1.noticeOpen {
      TightIgnoresFlags(c1, c1.(noticeOpen := true));
      PutMessageTight(c1.(noticeOpen := true), Desync);
    }
  }

  lemma ShedForTight(c: Client, size: int)
    requires Tight(c)
    ensures Tight(ShedFor(c, size))
  {
    hide Tight, ShedLoop, Announce;
    var d := ShedLoop(c, size, false).0;
    ShedLoopTight(c, size, false);
    TightIgnoresFlags(d, d.(droppedEvents := d.droppedEvents + 1));
    AnnounceTight(d.(droppedEvents := d.droppedEvents + 1));
  }

  lemma AddFrameTight(q: Queues, from: Option<int>, to: Option<int>, payload: bytes, endsInside: bool, at: int,
                      flags: Flags)
    requires TightIn(q, from, to) && Suffixes(q)
    ensures TightIn(AddFrame(q, payload, endsInside, Some(at), flags), from, to)
  {
    hide TightIn;
    KeepsLostTight(q, AddFrame(q, payload, endsInside, Some(at), flags), from, to);
  }

  lemma FittingTight(c: Client, payload: bytes, at: int, flags: Flags)
    requires Tight(c) && !flags.snapshot && (!flags.display ==> Follows(c.q.frames, at))
    ensures Tight(PutFitting(c, payload, Some(at), flags))
  {
    FittingTold(c, payload, at, flags);
    hide Told, ShedFor, Follows, TightIn, ToldIn;
    var s := Run(c.tracker, payload);
    var c0 := c.(tracker := s);
    TightIgnoresFlags(c, c0);
    ShedForTight(c0, |payload|);
    var c1 := ShedFor(c0, |payload|);
    ToldSuffixes(c1);
    AddFrameTight(c1.q, c1.lostFrom, c1.lostTo, payload, s != Outside, at, flags);
  }

  lemma ToldSuffixes(c: Client)
    requires Told(c)
    ensures Suffixes(c.q) && Ordered(c.q)
  {
  }

  lemma TakeKeepsLost(q: Queues)
    requires Ordered(q) && HasItems(q)
    ensures KeepsLost(q, Take(q))
  {
    TakeKeepsKept(q);
    hide Ordered, Kept;
    assert Take(q).frames == q.frames && Take(q).controls == q.controls;
    hide Take;
  }

  lemma TakeTight(c: Client)
    requires Tight(c) && HasItems(c.q)
    ensures Tight(TakeNext(c))
  {
    TakeTold(c);
    ToldSuffixes(c);
    hide Told, Ordered, TightIn, KeepsLost, Take;
    TakeKeepsLost(c.q);
    KeepsLostTight(c.q, Take(c.q), c.lostFrom, c.lostTo);
  }

  /** Live output, to which nobody but the client itself adds gap messages. */
  ghost predicate QuietAct(c: Client, act: Act) {
    LiveAct(c, act) && (act.PutMsgAct? ==> !act.msg.Gap?)
  }

  ghost predicate QuietRun(c: Client, acts: seq<Act>) {
    acts == []
    || (QuietRun(c, acts[..|acts| - 1]) && QuietAct(RunActs(c, acts[..|acts| - 1]), acts[|acts| - 1]))
  }

  lemma DoTight(c: Client, act: Act)
    requires Tight(c) && c.version >= 2 && QuietAct(c, act)
    ensures Tight(Do(c, act))
  {
    hide Tight, PutFitting, ShedOldestLoop, Announce, ToWire, TakeNext, Follows;
    match act {
      case PutDataAct(at, payload, flags) => FittingTight(c, payload, at, flags);
      case PutMsgAct(msg) => PutMessageTight(c, msg);
      case ShedAct(target) =>
        var d := ShedOldestLoop(c, target);
        ShedOldestLoopTight(c, target);
        TightIgnoresFlags(d, d.(droppedEvents := d.droppedEvents + 1));
        AnnounceTight(d.(droppedEvents := d.droppedEvents + 1));
      case SendAct =>
        if HasItems(c.q) {
          TakeTight(c);
          TightIgnoresFlags(TakeNext(c), SendNext(c).0);
        }
      case CloseAct => TightIgnoresFlags(c, c.(closed := true));
    }
  }

  lemma {:induction false} EveryQuiet(version: int, maxPending: int, maxBytes: int, acts: seq<Act>)
    requires version >= 2 && QuietRun(Fresh(version, maxPending, maxBytes), acts)
    ensures var c := RunActs(Fresh(version, maxPending, maxBytes), acts);
      LiveRun(Fresh(version, maxPending, maxBytes), acts) && Tight(c)
    decreases |acts|
  {
    hide Do, LiveAct;
    var before := acts[..Max(0, |acts| - 1)];
    if acts != [] {
      EveryQuiet(version, maxPending, maxBytes, before);
      EveryLossIsTold(version, maxPending, maxBytes, before);
      hide Tight;
      DoTight(RunActs(Fresh(version, maxPending, maxBytes), before), acts[|acts| - 1]);
    }
  }

  /**
    Over every run of live output a gap names no more than it has to: it begins
    with the first byte of a frame that was lost and ends with the last byte of one.
  */
  lemma EveryGapIsTight(version: int, maxPending: int, maxBytes: int, acts: seq<Act>, j: nat)
    requires version >= 2 && QuietRun(Fresh(version, maxPending, maxBytes), acts)
    requires var q := RunActs(Fresh(version, maxPending, maxBytes), acts).q;
      j < |q.controls| && q.controls[j].msg.Gap?
    ensures var q := RunActs(Fresh(version, maxPending, maxBytes), acts).q;
      BeginsLost(q, q.controls[j].msg.from) && EndsLost(q, q.controls[j].msg.to)
  {
    hide BeginsLost, EndsLost, RunActs, QuietRun;
    EveryQuiet(version, maxPending, maxBytes, acts);
  }

  // ---------------------------------------------------------------------
  // Once in a burst
  // ---------------------------------------------------------------------

  function GapsIn(controls: seq<Control>): nat {
    if controls == [] then 0
    else GapsIn(controls[..|controls| - 1]) + if controls[|controls| - 1].msg.Gap? then 1 else 0
  }

  function NoticesIn(controls: seq<Control>): nat {
    if controls == [] then 0
    else NoticesIn(controls[..|controls| - 1]) + if controls[|controls| - 1].msg.Desync? then 1 else 0
  }

  /** The messages said so far, and those this burst may still say. */
  function GapAllowance(c: Client): nat {
    GapsIn(c.q.controls) + if c.gapOpen then 0 else 1
  }

  function NoticeAllowance(c: Client): nat {
    NoticesIn(c.q.controls) + if c.noticeOpen then 0 else 1
  }

  ghost predicate SaysNoMore(c: Client, d: Client) {
    GapAllowance(d) <= GapAllowance(c) && NoticeAllowance(d) <= NoticeAllowance(c)
  }

  lemma OneMessage(q: Queues, msg: Msg)
    ensures var d := AddControl(q, msg);
      && GapsIn(d.controls) == GapsIn(q.controls) + (if msg.Gap? then 1 else 0)
      && NoticesIn(d.controls) == NoticesIn(q.controls) + (if msg.Desync? then 1 else 0)
  {
    var d := AddControl(q, msg);
    assert d.controls[..|q.controls|] == q.controls;
  }

  lemma GapOnce(c: Client, gap: Msg)
    requires gap.Gap? && !c.gapOpen
    ensures var d := PutControl(c.(gapOpen := true, lostFrom := None, lostTo := None), gap);
      SaysNoMore(c, d) && d.gapOpen && d.noticeOpen == c.noticeOpen
  {
    OneMessage(c.q, gap);
    hide GapsIn, NoticesIn, AddControl;
  }

  lemma NoticeOnce(c: Client)
    requires !c.noticeOpen
    ensures var d := PutControl(c.(noticeOpen := true), Desync);
      SaysNoMore(c, d) && d.noticeOpen && d.gapOpen == c.gapOpen
  {
    OneMessage(c.q, Desync);
    hide GapsIn, NoticesIn, AddControl;
  }

  lemma AnnounceOnce(c: Client)
    ensures SaysNoMore(c, Announce(c)) && Announce(c).noticeOpen
    ensures c.version >= 2 && c.lostFrom != None ==> Announce(c).gapOpen
  {
    hide PutControl, GapAllowance, NoticeAllowance;
    var c1 := c;
    if c.version >= 2 && c.lostFrom != None && !c.gapOpen {
      var gap := Gap(c.lostFrom.value, if c.lostTo != None then c.lostTo.value else c.lostFrom.value);
      GapOnce(c, gap);
      c1 := PutControl(c.(gapOpen := true, lostFrom := None, lostTo := None), gap);
    }
    if !c1.noticeOpen { NoticeOnce(c1); }
  }

  /** A loss that is counted outside a burst is spoken of at once: its exact range, and the notice last. */
  lemma CountedLossIsSpoken(c: Client)
    requires c.version >= 2
    ensures var d := CountShed(c);
      && d.noticeOpen
      && (!c.noticeOpen ==> |d.q.controls| > 0 && d.q.controls[|d.q.controls| - 1].msg == Desync)
      && (c.lostFrom != None && c.lostTo != None && !c.gapOpen ==>
            && d.gapOpen && d.lostFrom == None && |d.q.controls| > |c.q.controls|
            && d.q.controls[|c.q.controls|].msg == Gap(c.lostFrom.value, c.lostTo.value))
  {
    hide RoomForControl;
  }

  lemma EvictedSilently(c: Client, d: Client)
    requires Evicted(c, d)
    ensures d.q.controls == c.q.controls && d.gapOpen == c.gapOpen && d.noticeOpen == c.noticeOpen
    ensures SaysNoMore(c, d) && SaysNoMore(c, d.(droppedEvents := d.droppedEvents + 1))
  {
  }

  lemma ShedForOnce(c: Client, size: int)
    ensures SaysNoMore(c, ShedFor(c, size))
  {
    hide ShedLoop, Announce, GapAllowance, NoticeAllowance, Evicted;
    var d := ShedLoop(c, size, false).0;
    ShedLoopEvicts(c, size, false);
    EvictedSilently(c, d);
    AnnounceOnce(d.(droppedEvents := d.droppedEvents + 1));
  }

  lemma SnapshotOnce(c: Client, at: int, payload: bytes, flags: Flags)
    ensures SaysNoMore(c, QueueSnapshot(c, at, payload, flags))
  {
    hide ShedFor, EnqueueChunks, Split, GapsIn, NoticesIn;
    ShedForOnce(c, |payload|);
    var c1 := ShedFor(c, |payload|);
    var c2 := c1.(pending := c1.pending + |payload|);
    EnqueueChunksCounts(c2, Split(payload), at, flags);
    ChunksSayNothing(c2, Split(payload), at, flags);
  }

  lemma {:induction false} ChunksSayNothing(c: Client, chunks: seq<bytes>, at: int, flags: Flags)
    ensures EnqueueChunks(c, chunks, at, flags).q.controls == c.q.controls
    decreases |chunks|
  {
    if chunks != [] {
      var f := if |chunks| == 1 then flags.(last := true) else flags;
      ChunksSayNothing(Enqueue(c, chunks[0], false, Some(at), f), chunks[1..], at, flags);
    }
  }

  lemma FittingOnce(c: Client, payload: bytes, at: Option<int>, flags: Flags)
    ensures SaysNoMore(c, PutFitting(c, payload, at, flags))
  {
    hide ShedFor, Run, GapsIn, NoticesIn;
    ShedForOnce(c.(tracker := Run(c.tracker, payload)), |payload|);
  }

  lemma OversizeOnce(c: Client, payload: bytes, at: Option<int>)
    ensures SaysNoMore(c, PutOversize(c, payload, at))
  {
    hide Announce, Run, GapsIn, NoticesIn;
    var c1 := c.(tracker := Run(c.tracker, payload), droppedBytes := c.droppedBytes + |payload|,
                 droppedEvents := c.droppedEvents + 1);
    AnnounceOnce(c1);
    if at != None {
      AnnounceOnce(c1.(lostFrom := if c.lostFrom == None then at else c.lostFrom,
                       lostTo := Some(at.value + |payload|)));
    }
  }

  lemma ShedOldestOnce(c: Client, target: int)
    ensures SaysNoMore(c, ShedOldest(c, target))
  {
    hide ShedOldestLoop, Announce, GapAllowance, NoticeAllowance, Evicted;
    var d := ShedOldestLoop(c, target);
    ShedOldestLoopEvicts(c, target);
    EvictedSilently(c, d);
    AnnounceOnce(d.(droppedEvents := d.droppedEvents + 1));
  }

  /** Sending ends a burst when it empties both queues, and not before. */
  lemma SendOnce(c: Client)
    requires HasItems(c.q)
    ensures var (d, w) := SendNext(c);
      && d.q.controls == c.q.controls
      && (if w != None && !HasItems(d.q) then !d.gapOpen && !d.noticeOpen
          else d.gapOpen == c.gapOpen && d.noticeOpen == c.noticeOpen)
  {
    hide ToWire;
  }

  /** An act inside a burst: it does not end it, and gaps and notices are left to the client. */
  ghost predicate Within(c: Client, act: Act) {
    && (act.PutMsgAct? ==> !act.msg.Gap? && !act.msg.Desync?)
    && (act.SendAct? && HasItems(c.q) && SendNext(c).1 != None ==> HasItems(SendNext(c).0.q))
  }

  ghost predicate WithinBurst(c: Client, acts: seq<Act>) {
    acts == []
    || (WithinBurst(c, acts[..|acts| - 1]) && Within(RunActs(c, acts[..|acts| - 1]), acts[|acts| - 1]))
  }

  lemma DoOnce(c: Client, act: Act)
    requires Within(c, act)
    ensures SaysNoMore(c, Do(c, act))
  {
    hide SaysNoMore, QueueSnapshot, PutFitting, PutOversize, ShedOldest, SendNext;
    assert SaysNoMore(c, c) by { Unchanged(c, c); }
    match act {
      case PutDataAct(at, payload, flags) =>
        SnapshotOnce(c, at, payload, flags);
        FittingOnce(c, payload, Some(at), flags);
        FittingOnce(c, payload, None, LIVE);
        OversizeOnce(c, payload, None);
        OversizeOnce(c, payload, Some(at));
      case PutBytesAct(item) =>
        FittingOnce(c, item, None, LIVE);
        OversizeOnce(c, item, None);
      case PutMsgAct(msg) =>
        OneMessage(c.q, msg);
        OtherMessage(c, msg);
      case ShedAct(target) => ShedOldestOnce(c, target);
      case SendAct =>
        if HasItems(c.q) {
          SendOnce(c);
          Unchanged(c, SendNext(c).0);
        }
      case CloseAct => Unchanged(c, c.(closed := true));
    }
  }

  lemma Unchanged(c: Client, d: Client)
    requires d.q.controls == c.q.controls && d.gapOpen == c.gapOpen && d.noticeOpen == c.noticeOpen
    ensures SaysNoMore(c, d)
  {
  }

  lemma OtherMessage(c: Client, msg: Msg)
    requires !msg.Gap? && !msg.Desync?
    ensures SaysNoMore(c, PutControl(c, msg))
  {
    OneMessage(c.q, msg);
    hide GapsIn, NoticesIn;
  }

  /**
    Until both queues have been sent empty a viewer is told of losses once: at
    most one gap and one notice are queued, and none if the burst has begun.
  */
  lemma {:induction false} OneGapInABurst(c: Client, acts: seq<Act>)
    requires WithinBurst(c, acts)
    ensures var d := RunActs(c, acts);
      && GapsIn(d.q.controls) <= GapsIn(c.q.controls) + (if c.gapOpen then 0 else 1)
      && NoticesIn(d.q.controls) <= NoticesIn(c.q.controls) + (if c.noticeOpen then 0 else 1)
      && SaysNoMore(c, d)
    decreases |acts|
  {
    hide Do, Within, GapsIn, NoticesIn;
    if acts != [] {
      OneGapInABurst(c, acts[..|acts| - 1]);
      DoOnce(RunActs(c, acts[..|acts| - 1]), acts[|acts| - 1]);
    }
  }
}
