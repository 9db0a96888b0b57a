/** What one eviction takes, where it stops, and what it announces. */
module Shedding {
  import opened Bytes
  import opened Ansi
  import opened Protocol
  import opened OutboundQueues
  import opened ClientSpec
  import opened ClientRuns

  /** How many terminal frames went from `c` to `d`. */
  function Gone(c: Client, d: Client): int {
    |c.q.binary| - |d.q.binary|
  }

  /** A live eviction stops after the first frame that ended outside, or takes everything. */
  lemma {:induction false} DropLiveStops(c: Client)
    ensures var (d, ok) := DropLive(c);
      && 0 <= Gone(c, d) <= |c.q.binary|
      && (ok ==> Gone(c, d) > 0 && !c.q.binary[Gone(c, d) - 1].endsInside)
      && (!ok ==> d.q.binary == [])
      && (forall j :: 0 <= j < (if ok then Gone(c, d) - 1 else |c.q.binary|) ==> c.q.binary[j].endsInside)
    decreases |c.q.binary|
  {
    if c.q.binary != [] && c.q.binary[0].endsInside {
      var c1 := DropFrame(c);
      DropLiveStops(c1);
      assert forall j :: 0 < j < |c.q.binary| ==> c.q.binary[j] == c1.q.binary[j - 1];
    }
  }

  /** A group eviction takes the whole run of chunks with the head's anchor. */
  lemma {:induction false} DropGroupStops(c: Client, anchor: int)
    ensures var n := Gone(c, DropGroup(c, anchor));
      && 0 <= n <= |c.q.binary|
      && (forall j :: 0 <= j < n ==> InGroup(c.q.binary[j], anchor))
      && (n < |c.q.binary| ==> !InGroup(c.q.binary[n], anchor))
    decreases |c.q.binary|
  {
    if c.q.binary != [] && InGroup(c.q.binary[0], anchor) {
      var c1 := DropChunk(c, anchor);
      DropGroupStops(c1, anchor);
      assert forall j :: 0 < j < |c.q.binary| ==> c.q.binary[j] == c1.q.binary[j - 1];
    }
  }

  // ---------------------------------------------------------------------
  // Losses nobody is told of
  // ---------------------------------------------------------------------

  /** A snapshot chunk is never recorded as ending inside a sequence. */
  ghost predicate SnapshotsEndOutside(frames: seq<Frame>) {
    forall i :: 0 <= i < |frames| && frames[i].flags.snapshot ==> frames[i].at != None && !frames[i].endsInside
  }

  ghost predicate AllInside(frames: seq<Frame>) {
    forall i :: 0 <= i < |frames| ==> frames[i].endsInside
  }

  lemma {:induction false} LaterRoundsAreCounted(c: Client, size: int)
    ensures ShedLoop(c, size, true).1
    decreases |c.q.binary|
  {
    if Over(c, size) {
      DropShrinks(c);
      var (c1, ok) := DropOldest(c);
      if ok { LaterRoundsAreCounted(c1, size); }
    }
  }

  /**
    Making room loses frames without counting or announcing the loss exactly
    when room is needed and every queued frame ends inside a sequence.
  */
  lemma SilentLoss(c: Client, size: int)
    requires SnapshotsEndOutside(c.q.binary)
    ensures var d := ShedFor(c, size);
      (Gone(c, d) > 0 && d.droppedEvents == c.droppedEvents && d.q.controls == c.q.controls)
      <==> (Over(c, size) && c.q.binary != [] && AllInside(c.q.binary))
  {
    hide DropGroup, DropLive, Announce;
    if Over(c, size) && c.q.binary != [] {
      DropShrinks(c);
      DropLiveStops(c);
      DropOldestEvicts(c);
      var (c1, ok) := DropOldest(c);
      if ok {
        LaterRoundsAreCounted(c1, size);
        ShedLoopEvicts(c1, size, true);
        var d := ShedLoop(c, size, false).0;
        assert ShedLoop(c, size, false) == ShedLoop(c1, size, true);
        AnnounceCounts(d.(droppedEvents := d.droppedEvents + 1));
        assert !AllInside(c.q.binary);
      } else {
        assert AllInside(c.q.binary);
      }
    }
  }

  // ---------------------------------------------------------------------
  // Where the surviving stream begins
  // ---------------------------------------------------------------------

  /** The bytes of a list of frames. */
  ghost function Fed(frames: seq<Frame>): bytes {
    if frames == [] then [] else Fed(frames[..|frames| - 1]) + frames[|frames| - 1].payload
  }

  /** Each frame records the parser's state after the whole stream up to it. */
  ghost predicate Tracked(tracker: State, frames: seq<Frame>) {
    && tracker == Run(Outside, Fed(frames))
    && forall i :: 0 <= i < |frames| ==>
         !frames[i].flags.snapshot && (frames[i].endsInside <==> Run(Outside, Fed(frames[..i + 1])) != Outside)
  }

  lemma TrackedAppend(tracker: State, frames: seq<Frame>, f: Frame)
    requires Tracked(tracker, frames)
    requires !f.flags.snapshot && (f.endsInside <==> Run(tracker, f.payload) != Outside)
    ensures Tracked(Run(tracker, f.payload), frames + [f])
  {
    var all := frames + [f];
    assert all[..|frames|] == frames;
    assert Fed(all) == Fed(frames) + f.payload;
    hide Run, Fed;
    RunAppend(Outside, Fed(frames), f.payload);
    forall i | 0 <= i < |all|
      ensures !all[i].flags.snapshot && (all[i].endsInside <==> Run(Outside, Fed(all[..i + 1])) != Outside)
    {
      if i < |frames| { assert all[..i + 1] == frames[..i + 1]; } else { assert all[..i + 1] == all; }
    }
  }

  /** An act that feeds the tracker and the queue alike: no snapshot, nothing above the budget. */
  predicate TrackedAct(c: Client, act: Act) {
    match act
    case PutDataAct(_, payload, flags) => !(c.version >= 2 && flags.snapshot) && Fits(c, payload)
    case PutBytesAct(item) => Fits(c, item)
    case _ => true
  }

  ghost predicate TrackedRun(c: Client, acts: seq<Act>) {
    acts == []
    || (TrackedRun(c, acts[..|acts| - 1]) && TrackedAct(RunActs(c, acts[..|acts| - 1]), acts[|acts| - 1]))
  }

  lemma FittingTracked(c: Client, payload: bytes, at: Option<int>, flags: Flags)
    requires Tracked(c.tracker, c.q.frames) && !flags.snapshot
    ensures var d := PutFitting(c, payload, at, flags);
      Tracked(d.tracker, d.q.frames)
  {
    hide Tracked, ShedFor;
    var s := Run(c.tracker, payload);
    ShedForShape(c.(tracker := s), |payload|);
    var f := PutFitting(c, payload, at, flags).q.frames[|c.q.frames|];
    TrackedAppend(c.tracker, c.q.frames, f);
  }

  /** Only puts of terminal data touch the tracker and the history of frames. */
  lemma QuietActs(c: Client, act: Act)
    requires !act.PutDataAct? && !act.PutBytesAct?
    ensures Do(c, act).q.frames == c.q.frames && Do(c, act).tracker == c.tracker
  {
    hide ToWire, ShedOldestLoop, Announce;
    if act.ShedAct? {
      var d := ShedOldestLoop(c, act.target);
      ShedOldestLoopEvicts(c, act.target);
      AnnounceShape(d.(droppedEvents := d.droppedEvents + 1));
    }
  }

  lemma DoTracked(c: Client, act: Act)
    requires TrackedAct(c, act) && Tracked(c.tracker, c.q.frames)
    ensures Tracked(Do(c, act).tracker, Do(c, act).q.frames)
  {
    hide Tracked, PutFitting, PutOversize, QueueSnapshot;
    match act {
      case PutDataAct(at, payload, flags) =>
        FittingTracked(c, payload, Some(at), flags.(snapshot := false));
        FittingTracked(c, payload, None, LIVE);
      case PutBytesAct(item) => FittingTracked(c, item, None, LIVE);
      case _ => QuietActs(c, act);
    }
  }

  /** Over every such run the recorded states are those of the stream fed so far. */
  lemma {:induction false} EveryTracked(version: int, maxPending: int, maxBytes: int, acts: seq<Act>)
    requires TrackedRun(Fresh(version, maxPending, maxBytes), acts)
    ensures var c := RunActs(Fresh(version, maxPending, maxBytes), acts);
      Tracked(c.tracker, c.q.frames)
    decreases |acts|
  {
    hide Do;
    if acts != [] {
      EveryTracked(version, maxPending, maxBytes, acts[..|acts| - 1]);
      DoTracked(RunActs(Fresh(version, maxPending, maxBytes), acts[..|acts| - 1]), acts[|acts| - 1]);
    }
  }

  /** Why frames are evicted: to make room for a frame of `size` bytes, or to give up `target` bytes. */
  datatype Want = Room(size: int) | Give(target: int)

  /** With its `k` oldest frames gone, the client has still not got what it wants. */
  predicate Wants(c: Client, want: Want, k: nat)
    requires k <= |c.q.binary|
  {
    var left := Total(c.q.binary[k..]);
    match want
    case Room(size) => (c.maxBytes > 0 && left + size > c.maxBytes) || |c.q.binary| - k + |c.q.control| >= c.maxPending
    case Give(target) => left > 0 && Total(c.q.binary) - left < target
  }

  /** Behind the frame before `k` is no place to stop, or what has gone by then is not enough. */
  predicate GoesOn(c: Client, want: Want, k: nat)
    requires 0 < k <= |c.q.binary|
  {
    c.q.binary[k - 1].endsInside || Wants(c, want, k)
  }

  /** No frame but the last is both a place to stop and enough. */
  ghost predicate Empties(c: Client, want: Want) {
    forall k :: 0 < k < |c.q.binary| ==> GoesOn(c, want, k)
  }

  /** What is still wanted of `c1`, which is `c` less its `n` oldest frames. */
  function Rest(c: Client, want: Want, n: nat): Want
    requires n <= |c.q.binary|
  {
    match want
    case Room(size) => want
    case Give(target) => Give(target - (Total(c.q.binary) - Total(c.q.binary[n..])))
  }

  /**
    What an eviction does: it happens exactly when something is wanted and there
    is something to give, and it stops at the first place behind a frame that
    ended outside a sequence where enough has gone, or empties the queue.
  */
  ghost predicate StopsAt(c: Client, n: nat, want: Want) {
    && n <= |c.q.binary|
    && (n > 0 <==> Wants(c, want, 0) && |c.q.binary| > 0)
    && (forall k :: 0 < k < n ==> GoesOn(c, want, k))
    && (0 < n < |c.q.binary| ==> !GoesOn(c, want, n))
  }

  lemma StopsOrEmpties(c: Client, n: nat, want: Want)
    requires StopsAt(c, n, want) && n > 0
    ensures n == |c.q.binary| <==> Empties(c, want)
  {
    hide Wants;
    hide GoesOn;
  }

  ghost predicate Stops(c: Client, d: Client, want: Want) {
    Gone(c, d) >= 0 && StopsAt(c, Gone(c, d), want) && d.q.binary == c.q.binary[Gone(c, d)..]
  }

  lemma WantsRest(c: Client, c1: Client, want: Want, n: nat)
    requires n <= |c.q.binary| && c1.q.binary == c.q.binary[n..] && c1.q.control == c.q.control
    requires c1.maxBytes == c.maxBytes && c1.maxPending == c.maxPending
    ensures forall k :: 0 <= k <= |c1.q.binary| ==> (Wants(c1, Rest(c, want, n), k) <==> Wants(c, want, n + k))
  {
    hide Total;
    forall k | 0 <= k <= |c1.q.binary| ensures Wants(c1, Rest(c, want, n), k) <==> Wants(c, want, n + k) {
      assert c1.q.binary[k..] == c.q.binary[n + k..];
    }
  }

  /** One round, and the rounds after it. */
  lemma RoundStops(c: Client, c1: Client, n: nat, m: nat, want: Want)
    requires 0 < n <= |c.q.binary| && c1.q.binary == c.q.binary[n..] && c1.q.control == c.q.control
    requires c1.maxBytes == c.maxBytes && c1.maxPending == c.maxPending
    requires !c.q.binary[n - 1].endsInside && forall j :: 0 <= j < n - 1 ==> c.q.binary[j].endsInside
    requires Wants(c, want, 0) && StopsAt(c1, m, Rest(c, want, n))
    ensures StopsAt(c, n + m, want)
  {
    WantsRest(c, c1, want, n);
    var rest := Rest(c, want, n);
    hide Wants, Rest;
    assert Wants(c1, rest, 0) <==> Wants(c, want, n + 0);
    forall k | 0 < k <= |c1.q.binary| ensures GoesOn(c, want, n + k) <==> GoesOn(c1, rest, k) {
      assert c1.q.binary[k - 1] == c.q.binary[n + k - 1];
    }
    forall k | 0 < k < n + m ensures GoesOn(c, want, k) {
      if k > n { assert GoesOn(c, want, n + (k - n)) <==> GoesOn(c1, rest, k - n); }
    }
  }

  lemma Rounds(c: Client, c1: Client, d: Client, want: Want)
    requires c.q.binary != [] && Wants(c, want, 0) && DropLive(c) == (c1, true)
    requires c1.q.control == c.q.control && c1.maxBytes == c.maxBytes && c1.maxPending == c.maxPending
    requires 0 <= Gone(c, c1) <= |c.q.binary| && c1.q.binary == c.q.binary[Gone(c, c1)..]
    requires Stops(c1, d, Rest(c, want, Gone(c, c1)))
    ensures Stops(c, d, want)
  {
    hide DropLive, Wants, Rest, StopsAt;
    DropLiveStops(c);
    RoundStops(c, c1, Gone(c, c1), Gone(c1, d), want);
  }

  ghost predicate OnlyLive(c: Client) {
    c.pending == Total(c.q.binary) && forall i :: 0 <= i < |c.q.binary| ==> !c.q.binary[i].flags.snapshot
  }

  /** One drop of live frames. */
  lemma LiveDrop(c: Client)
    requires OnlyLive(c) && c.q.binary != []
    ensures var (c1, ok) := DropOldest(c);
      && DropLive(c) == (c1, ok) && OnlyLive(c1) && c1.q.control == c.q.control
      && c1.maxBytes == c.maxBytes && c1.maxPending == c.maxPending
      && 0 <= Gone(c, c1) <= |c.q.binary| && c1.q.binary == c.q.binary[Gone(c, c1)..]
      && (!ok ==> c1.q.binary == [] && forall j :: 0 <= j < |c.q.binary| ==> c.q.binary[j].endsInside)
      && c1.droppedBytes - c.droppedBytes == Total(c.q.binary) - Total(c1.q.binary)
  {
    DropLiveStops(c);
    DropOldestEvicts(c);
    DropLiveBytes(c);
    hide DropLive, Total;
  }

  lemma {:induction false} DropLiveBytes(c: Client)
    ensures DropLive(c).0.droppedBytes - c.droppedBytes == Total(c.q.binary) - Total(DropLive(c).0.q.binary)
    decreases |c.q.binary|
  {
    if c.q.binary != [] && c.q.binary[0].endsInside { DropLiveBytes(DropFrame(c)); }
  }

  lemma {:induction false} ShedLoopStops(c: Client, size: int, shed: bool)
    requires OnlyLive(c)
    ensures Stops(c, ShedLoop(c, size, shed).0, Room(size))
    decreases |c.q.binary|
  {
    hide DropLive, Total;
    assert c.q.binary[0..] == c.q.binary;
    if Over(c, size) && c.q.binary != [] {
      LiveDrop(c);
      DropShrinks(c);
      var (c1, ok) := DropOldest(c);
      hide DropOldest;
      if ok {
        ShedLoopStops(c1, size, true);
        Rounds(c, c1, ShedLoop(c1, size, true).0, Room(size));
      }
    }
  }

  lemma {:induction false} ShedOldestLoopStops(c: Client, target: int)
    requires OnlyLive(c)
    ensures Stops(c, ShedOldestLoop(c, target), Give(target))
    decreases |c.q.binary|
  {
    hide DropLive;
    assert c.q.binary[0..] == c.q.binary;
    if c.pending > 0 && target > 0 {
      LiveDrop(c);
      DropShrinks(c);
      var (c1, ok) := DropOldest(c);
      hide DropOldest, Total;
      var t1 := target - (c1.droppedBytes - c.droppedBytes);
      if ok {
        ShedOldestLoopStops(c1, t1);
        assert Rest(c, Give(target), Gone(c, c1)) == Give(t1);
        Rounds(c, c1, ShedOldestLoop(c1, t1), Give(target));
      }
    }
  }

  /** Every loss of frames by a put or on request: what it is for, and whom it is taken from. */
  ghost predicate Clean(d: Client) {
    0 <= Taken(d.q) <= |d.q.frames| && Run(Outside, Fed(d.q.frames[..Taken(d.q)])) == Outside
  }

  /** The queue is emptied, and the last frame to go ended inside a sequence. */
  ghost predicate CutsInside(c: Client, want: Want) {
    c.q.binary != [] && c.q.binary[|c.q.binary| - 1].endsInside && Empties(c, want)
  }

  /** `b` is `c` with only its tracker moved on. */
  lemma StopsClean(c: Client, b: Client, d: Client, want: Want, e: Client)
    requires Suffixes(c.q) && Tracked(c.tracker, c.q.frames) && b.q == c.q && Stops(b, d, want) && Gone(b, d) > 0
    requires |c.q.frames| <= |e.q.frames| && e.q.frames[..|c.q.frames|] == c.q.frames
        && Taken(e.q) == Taken(c.q) + Gone(b, d)
    ensures Clean(e) <==> !CutsInside(b, want)
  {
    hide Fed, Run, Wants, Empties;
    var n := Gone(b, d);
    var t := Taken(e.q);
    assert c.q.binary[n - 1] == c.q.frames[t - 1];
    assert e.q.frames[..t] == c.q.frames[..t];
    assert Run(Outside, Fed(c.q.frames[..t - 1 + 1])) == Outside <==> !c.q.frames[t - 1].endsInside;
    StopsOrEmpties(b, n, want);
    if n == |c.q.binary| { assert d.q.binary == []; } else { assert !GoesOn(b, want, n); }
  }

  lemma NoSnapshotsQueued(c: Client)
    requires Suffixes(c.q) && Tracked(c.tracker, c.q.frames)
    ensures forall i :: 0 <= i < |c.q.binary| ==> !c.q.binary[i].flags.snapshot
  {
    hide Fed, Run;
    assert forall i :: 0 <= i < |c.q.binary| ==> c.q.binary[i] == c.q.frames[Taken(c.q) + i];
  }

  lemma ShedForStops(c: Client, size: int)
    requires OnlyLive(c)
    ensures var d := ShedFor(c, size);
      && Stops(c, d, Room(size)) && (Gone(c, d) > 0 <==> Over(c, size) && c.q.binary != [])
  {
    hide ShedLoop, Announce, Total, Empties;
    assert c.q.binary[0..] == c.q.binary;
    var d := ShedLoop(c, size, false).0;
    ShedLoopStops(c, size, false);
    AnnounceShape(d.(droppedEvents := d.droppedEvents + 1));
    if !Over(c, size) { NotOver(c, size); }
  }

  lemma NotOver(c: Client, size: int)
    requires !Over(c, size)
    ensures ShedFor(c, size) == c
  {
  }

  /** A put takes from the queue what making room takes, and adds one frame. */
  lemma PutTakes(c: Client, payload: bytes, at: Option<int>, flags: Flags)
    requires Suffixes(c.q)
    ensures var c0, d := c.(tracker := Run(c.tracker, payload)), PutFitting(c, payload, at, flags);
      var n := Gone(c0, ShedFor(c0, |payload|));
      && Taken(d.q) == Taken(c.q) + n
      && |c.q.frames| <= |d.q.frames| && d.q.frames[..|c.q.frames|] == c.q.frames
  {
    hide ShedFor, Run;
    ShedForShape(c.(tracker := Run(c.tracker, payload)), |payload|);
  }

  /**
    A put evicts exactly when the client is over its bounds with the frame and
    has something queued.  What is left then begins outside any sequence of the
    stream, except exactly when the put empties the queue behind a frame that
    ended inside one; both can be told from the queue before.
  */
  lemma HeadAfterShed(c: Client, payload: bytes, at: Option<int>, flags: Flags)
    requires Suffixes(c.q) && Tracked(c.tracker, c.q.frames) && c.pending == Total(c.q.binary)
    ensures var d := PutFitting(c, payload, at, flags);
      && (Taken(d.q) > Taken(c.q) <==> Over(c, |payload|) && c.q.binary != [])
      && (Taken(d.q) > Taken(c.q) ==> (Clean(d) <==> !CutsInside(c, Room(|payload|))))
  {
    hide Fed, Run, ShedFor, PutFitting, Total, Tracked, Empties, Stops;
    var c0 := c.(tracker := Run(c.tracker, payload));
    var want := Room(|payload|);
    NoSnapshotsQueued(c);
    ShedForStops(c0, |payload|);
    PutTakes(c, payload, at, flags);
    assert Over(c, |payload|) == Over(c0, |payload|);
    var d0 := ShedFor(c0, |payload|);
    if Gone(c0, d0) > 0 {
      StopsClean(c, c0, d0, want, PutFitting(c, payload, at, flags));
      SameQueue(c, c0, want);
    }
  }

  lemma SameQueue(c: Client, b: Client, want: Want)
    requires b.q == c.q && b.maxBytes == c.maxBytes && b.maxPending == c.maxPending
    ensures CutsInside(c, want) == CutsInside(b, want)
  {
    hide Total;
    forall k | 0 <= k <= |c.q.binary| ensures Wants(c, want, k) == Wants(b, want, k) {}
    forall k | 0 < k <= |c.q.binary| ensures GoesOn(c, want, k) == GoesOn(b, want, k) {}
  }

  /** Giving up data on request does the same. */
  lemma HeadAfterGiving(c: Client, target: int)
    requires Suffixes(c.q) && Tracked(c.tracker, c.q.frames) && c.pending == Total(c.q.binary)
    ensures var d := ShedOldest(c, target);
      && (Taken(d.q) > Taken(c.q) <==> c.pending > 0 && target > 0)
      && (Taken(d.q) > Taken(c.q) ==> (Clean(d) <==> !CutsInside(c, Give(target))))
  {
    hide Fed, Run, Tracked, Empties, ShedOldestLoop, Announce;
    assert c.q.binary[0..] == c.q.binary && Total([]) == 0;
    NoSnapshotsQueued(c);
    ShedOldestLoopStops(c, target);
    ShedOldestLoopEvicts(c, target);
    hide Total;
    var d0 := ShedOldestLoop(c, target);
    AnnounceShape(d0.(droppedEvents := d0.droppedEvents + 1));
    var d := ShedOldest(c, target);
    assert d.q.binary == d0.q.binary && d.q.frames == c.q.frames;
    assert c.q.frames[..|c.q.frames|] == c.q.frames;
    if Gone(c, d0) > 0 { StopsClean(c, c, d0, Give(target), d); }
  }

  /**
    Over every run that feeds the tracker and the queue alike: after any
    eviction, by a put or on request, the surviving stream begins outside a
    sequence except exactly when the queue before it says that it is emptied
    behind a frame ending inside one.
  */
  lemma EveryShedCut(version: int, maxPending: int, maxBytes: int, acts: seq<Act>,
                     payload: bytes, at: Option<int>, flags: Flags, target: int)
    requires TrackedRun(Fresh(version, maxPending, maxBytes), acts)
    ensures
      var c := RunActs(Fresh(version, maxPending, maxBytes), acts);
      var d := PutFitting(c, payload, at, flags);
      && (Taken(d.q) > Taken(c.q) <==> Over(c, |payload|) && c.q.binary != [])
      && (Taken(d.q) > Taken(c.q) ==> (Clean(d) <==> !CutsInside(c, Room(|payload|))))
    ensures
      var c := RunActs(Fresh(version, maxPending, maxBytes), acts);
      var d := ShedOldest(c, target);
      && (Taken(d.q) > Taken(c.q) <==> c.pending > 0 && target > 0)
      && (Taken(d.q) > Taken(c.q) ==> (Clean(d) <==> !CutsInside(c, Give(target))))
  {
    EveryClient(version, maxPending, maxBytes, acts);
    EveryTracked(version, maxPending, maxBytes, acts);
    var c := RunActs(Fresh(version, maxPending, maxBytes), acts);
    hide PutFitting, ShedOldest, Tracked, RunActs, Arrival, WireInOrder, Clean, CutsInside;
    HeadAfterShed(c, payload, at, flags);
    HeadAfterGiving(c, target);
  }

  // ---------------------------------------------------------------------
  // One frame put
  // ---------------------------------------------------------------------

  /** The frame put is last in line, behind what was left; alone, or within both bounds. */
  lemma PutLeavesRoom(c: Client, payload: bytes, at: Option<int>, flags: Flags)
    requires c.pending == Total(c.q.binary)
    ensures var d := PutFitting(c, payload, at, flags);
      && |d.q.binary| > 0
      && d.q.binary[|d.q.binary| - 1]
           == Frame(d.q.order, payload, Run(c.tracker, payload) != Outside, at, flags)
      && |d.q.binary| - 1 <= |c.q.binary|
      && d.q.binary[..|d.q.binary| - 1] == c.q.binary[|c.q.binary| - (|d.q.binary| - 1)..]
      && (|d.q.binary| == 1
          || (|d.q.binary| + |c.q.control| <= c.maxPending
              && (c.maxBytes > 0 ==> Total(d.q.binary[..|d.q.binary| - 1]) + |payload| <= c.maxBytes)))
  {
    hide ShedFor, Run, Total;
    var c0 := c.(tracker := Run(c.tracker, payload));
    ShedForShape(c0, |payload|);
    ShedForRoom(c0, |payload|);
    var c1 := ShedFor(c0, |payload|);
    assert PutFitting(c, payload, at, flags).q.binary[..|c1.q.binary|] == c1.q.binary;
  }

  lemma ShedForRoom(c: Client, size: int)
    requires c.pending == Total(c.q.binary)
    ensures var d := ShedFor(c, size);
      d.q.binary == []
      || (|d.q.binary| + |c.q.control| < c.maxPending
          && (c.maxBytes > 0 ==> Total(d.q.binary) + size <= c.maxBytes))
  {
    hide ShedLoop, Announce, Total;
    ShedLoopEvicts(c, size, false);
    var d := ShedLoop(c, size, false).0;
    AnnounceShape(d.(droppedEvents := d.droppedEvents + 1));
  }

  /** A frame above the whole budget is lost alone: nothing in line makes room for it, and its loss is told or owed. */
  lemma OversizeIsLostAlone(c: Client, at: int, payload: bytes, flags: Flags)
    requires c.version >= 2 && !flags.snapshot && 0 < c.maxBytes < |payload|
    ensures var d := PutData(c, at, payload, flags);
      && d.q.binary == c.q.binary && d.q.frames == c.q.frames && d.pending == c.pending
      && d.tracker == Run(c.tracker, payload)
      && d.droppedBytes == c.droppedBytes + |payload| && d.droppedEvents == c.droppedEvents + 1
      && (!flags.display ==>
            var from := if c.lostFrom == None then at else c.lostFrom.value;
            if c.gapOpen then d.lostFrom == Some(from) && d.lostTo == Some(at + |payload|)
            else |d.q.controls| > |c.q.controls|
                 && d.q.controls[|c.q.controls|].msg == Gap(from, at + |payload|))
      && (flags.display && c.lostFrom == None ==>
            && d.lostFrom == None && c.q.controls <= d.q.controls && |d.q.controls| <= |c.q.controls| + 1
            && forall j :: |c.q.controls| <= j < |d.q.controls| ==> d.q.controls[j].msg == Desync)
  {
    hide Run, RoomForControl;
  }

  // ---------------------------------------------------------------------
  // A run
  // ---------------------------------------------------------------------

  /** ESC opens a sequence, and `D` ends it. */
  lemma EscapeOpens()
    ensures Run(Outside, [ESC]) == Esc && Run(Esc, [68]) == Outside
  {
    RunSnoc(Outside, [ESC], 0);
    RunSnoc(Esc, [68], 0);
    assert [ESC][..1] == [ESC] && [68 as byte][..1] == [68];
  }

  /** The only frame in line ends inside a sequence; making room takes it, and says nothing. */
  lemma TakesTheOnlyFrame(c: Client, size: int)
    requires |c.q.binary| == 1 && Over(c, size)
    requires c.q.binary[0].endsInside && !c.q.binary[0].flags.snapshot
    ensures ShedFor(c, size) == DropFrame(c)
  {
    var c1 := DropFrame(c);
    assert c1.q.binary == [] && DropLive(c1) == (c1, false);
    assert DropOldest(c) == (c1, false);
  }

  /** A viewer with a budget of one byte, and ESC in its line. */
  function EscapeAlone(flags: Flags): Client {
    var f := Frame(1, [ESC], true, Some(0), flags);
    Fresh(2, 512, 1).(q := Queues([f], [], 1, [f], [], []), tracker := Esc, pending := 1)
  }

  lemma EscapeIsPut(flags: Flags)
    requires !flags.snapshot
    ensures PutData(Fresh(2, 512, 1), 0, [ESC], flags) == EscapeAlone(flags)
  {
    EscapeOpens();
    hide Run;
    assert ShedFor(Fresh(2, 512, 1).(tracker := Esc), 1) == Fresh(2, 512, 1).(tracker := Esc);
    hide ShedFor;
  }

  /** The only other frame goes; the new one is put in its place. */
  lemma EscapeIsLost(flags: Flags)
    requires !flags.snapshot && !flags.display
    ensures var c, g := EscapeAlone(flags), Frame(2, [68], false, Some(1), flags);
      PutData(c, 1, [68], flags)
        == c.(q := Queues([g], [], 2, c.q.frames + [g], [], []), tracker := Outside, droppedBytes := 1,
              lostFrom := Some(0), lostTo := Some(1))
  {
    EscapeOpens();
    hide Run;
    var c := EscapeAlone(flags);
    TakesTheOnlyFrame(c.(tracker := Outside), 1);
    hide ShedFor;
  }

  /**
    A viewer with a budget of one byte is put ESC, and then the byte that ends
    the sequence.  The ESC goes without being counted or announced, and what is
    left begins inside the sequence.
  */
  lemma LossInSilence(flags: Flags)
    requires !flags.snapshot && !flags.display
    ensures var c := PutData(Fresh(2, 512, 1), 0, [ESC], flags);
      var d := PutData(c, 1, [68], flags);
      && d.q.frames == [Frame(1, [ESC], true, Some(0), flags), Frame(2, [68], false, Some(1), flags)]
      && d.q.binary == d.q.frames[1..] && d.q.sent == []
      && d.droppedBytes == 1 && d.droppedEvents == 0 && d.q.control == d.q.controls == []
      && !Clean(d) && CutsInside(c, Room(1))
  {
    EscapeIsPut(flags);
    EscapeIsLost(flags);
    hide PutData, Total;
    EscapeOpens();
    hide Run;
    var d := PutData(EscapeAlone(flags), 1, [68], flags);
    var first := Frame(1, [ESC], true, Some(0), flags);
    assert d.q.frames[..1] == [first] && [first][..0] == [];
    assert Fed([first]) == [ESC];
  }
}
