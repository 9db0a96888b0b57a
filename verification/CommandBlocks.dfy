/** Command blocks: what the shell-integration marks extracted from the stream add up to. */
module CommandBlocks {
  import opened Bytes
  import opened Marks

  /** A mark, the offset its read was labelled with, and the clock when it was handled. */
  datatype Stamped = Stamped(mark: Mark, at: Option<int>, time: real)

  datatype Pending = Pending(command: string, cwd: Option<string>, startedAt: Option<real>, outputSeq: Option<int>)

  datatype Status = Running | Ok | Failed

  datatype Block = Block(
    command: string,
    cwd: Option<string>,
    startedAt: Option<real>,
    endedAt: real,
    durationMs: Option<int>,
    exitCode: Option<int>,
    status: Status,
    outputSeq: Option<int>)

  datatype Log = Log(pending: Pending, blocks: seq<Block>, enabled: bool)

  const NOTHING := Pending("", None, None, None)

  /** Truncation toward zero. */
  function Truncate(x: real): int {
    if x >= 0.0 then x.Floor else -((-x).Floor)
  }

  function Close(p: Pending, s: Stamped, exitCode: Option<int>): Block {
    Block(p.command, p.cwd, p.startedAt, s.time,
          if p.startedAt == None then None else Some(Truncate((s.time - p.startedAt.value) * 1000.0)),
          exitCode,
          if exitCode == None then Running else if exitCode.value == 0 then Ok else Failed,
          p.outputSeq)
  }

  /** What one mark does to the command in progress. */
  function Note(p: Pending, s: Stamped): Pending {
    match s.mark
    case PromptStart => NOTHING.(cwd := p.cwd)
    case CommandStart => p.(command := "", outputSeq := s.at)
    case Executed =>
      p.(startedAt := if p.startedAt == None then Some(s.time) else p.startedAt,
         outputSeq := if p.outputSeq == None then s.at else p.outputSeq)
    case Finished(_) => NOTHING.(cwd := p.cwd)
    case Cwd(path) => if path == "" then p else p.(cwd := Some(path))
    case CommandLine(text) => p.(command := text)
    case PlainPrompt => p
    case PlainCommandStart => p
    case Unknown => p
  }

  predicate Enables(m: Mark) {
    !m.Cwd? && !m.Unknown?
  }

  function Handle(log: Log, s: Stamped): Log {
    Log(Note(log.pending, s),
        if s.mark.Finished? then log.blocks + [Close(log.pending, s, s.mark.exitCode)] else log.blocks,
        log.enabled || Enables(s.mark))
  }

  function HandleAll(log: Log, marks: seq<Stamped>): Log {
    if marks == [] then log else Handle(HandleAll(log, marks[..|marks| - 1]), marks[|marks| - 1])
  }

  /** The last `n` elements, or all of them. */
  function Last<T>(n: nat, s: seq<T>): seq<T> {
    if |s| > n then s[|s| - n..] else s
  }

  function Feed(maxBlocks: nat, log: Log, marks: seq<Stamped>): Log {
    var l := HandleAll(log, marks);
    l.(blocks := Last(maxBlocks, l.blocks))
  }

  class BlockLog {
    const maxBlocks: nat
    var pending: Pending
    var blocks: seq<Block>
    var enabled: bool

    ghost function View(): Log
      reads this
    {
      Log(pending, blocks, enabled)
    }

    constructor (maxBlocks: nat)
      ensures View() == Log(NOTHING, [], false) && this.maxBlocks == maxBlocks
    {
      this.maxBlocks, pending, blocks, enabled := maxBlocks, NOTHING, [], false;
    }

    method HandleMark(s: Stamped)
      modifies this
      ensures View() == Handle(old(View()), s)
    {
      if Enables(s.mark) { enabled := true; }
      match s.mark {
        case PromptStart => pending := Pending("", pending.cwd, None, None);
        case CommandStart => pending := pending.(command := "", outputSeq := s.at);
        case Executed =>
          if pending.startedAt == None { pending := pending.(startedAt := Some(s.time)); }
          if pending.outputSeq == None { pending := pending.(outputSeq := s.at); }
        case Finished(exitCode) =>
          var duration := None;
          if pending.startedAt != None { duration := Some(Truncate((s.time - pending.startedAt.value) * 1000.0)); }
          var status := if exitCode == None then Running else if exitCode.value == 0 then Ok else Failed;
          blocks := blocks + [Block(pending.command, pending.cwd, pending.startedAt, s.time, duration, exitCode,
                                    status, pending.outputSeq)];
          pending := Pending("", pending.cwd, None, None);
        case Cwd(path) => if path != "" { pending := pending.(cwd := Some(path)); }
        case CommandLine(text) => pending := pending.(command := text);
        case PlainPrompt =>
        case PlainCommandStart =>
        case Unknown =>
      }
    }

    /** One payload, as it was extracted from the stream and decoded. */
    method HandlePayload(text: string, at: Option<int>, time: real, base64: Base64)
      modifies this
      ensures View() == Handle(old(View()), Stamped(MarkOf(text, base64), at, time))
    {
      HandleMark(Stamped(MarkOf(text, base64), at, time));
    }

    /** The marks of one read. */
    method FeedMarks(marks: seq<Stamped>)
      modifies this
      ensures View() == Feed(maxBlocks, old(View()), marks)
    {
      for i := 0 to |marks|
        invariant View() == HandleAll(old(View()), marks[..i])
      {
        assert marks[..i + 1][..i] == marks[..i];
        HandleMark(marks[i]);
      }
      assert marks[..|marks|] == marks;
      if |blocks| > maxBlocks { blocks := blocks[|blocks| - maxBlocks..]; }
    }
  }

  // ---------------------------------------------------------------------
  // Any split into reads
  // ---------------------------------------------------------------------

  function FeedRuns(maxBlocks: nat, rounds: seq<seq<Stamped>>): Log {
    if rounds == [] then Log(NOTHING, [], false)
    else Feed(maxBlocks, FeedRuns(maxBlocks, rounds[..|rounds| - 1]), rounds[|rounds| - 1])
  }

  lemma {:induction false} HandleAppend(log: Log, a: seq<Stamped>, b: seq<Stamped>)
    ensures HandleAll(log, a + b) == HandleAll(HandleAll(log, a), b)
    decreases |b|
  {
    if b == [] {
      assert a + b == a;
    } else {
      var b' := b[..|b| - 1];
      assert (a + b)[..|a + b| - 1] == a + b';
      HandleAppend(log, a, b');
    }
  }

  /** Blocks forgotten before a read change nothing but the blocks forgotten after it. */
  lemma {:induction false} ForgettingCommutes(maxBlocks: nat, log: Log, marks: seq<Stamped>)
    ensures Feed(maxBlocks, log.(blocks := Last(maxBlocks, log.blocks)), marks) == Feed(maxBlocks, log, marks)
    ensures exists more :: HandleAll(log, marks).blocks == log.blocks + more
                        && HandleAll(log.(blocks := Last(maxBlocks, log.blocks)), marks)
                             == HandleAll(log, marks).(blocks := Last(maxBlocks, log.blocks) + more)
    decreases |marks|
  {
    var short := log.(blocks := Last(maxBlocks, log.blocks));
    if marks == [] {
      assert log.blocks + [] == log.blocks && short.blocks + [] == short.blocks;
    } else {
      var m', s := marks[..|marks| - 1], marks[|marks| - 1];
      ForgettingCommutes(maxBlocks, log, m');
      var more :| HandleAll(log, m').blocks == log.blocks + more
               && HandleAll(short, m') == HandleAll(log, m').(blocks := short.blocks + more);
      var x := if s.mark.Finished? then [Close(HandleAll(log, m').pending, s, s.mark.exitCode)] else [];
      assert log.blocks + more + x == log.blocks + (more + x);
      assert short.blocks + more + x == short.blocks + (more + x);
      assert more + [] == more;
    }
    var more :| HandleAll(log, marks).blocks == log.blocks + more
             && HandleAll(short, marks) == HandleAll(log, marks).(blocks := short.blocks + more);
    LastOfLast(maxBlocks, log.blocks, more);
  }

  lemma LastOfLast<T>(n: nat, a: seq<T>, b: seq<T>)
    ensures Last(n, Last(n, a) + b) == Last(n, a + b)
  {
    assert forall i :: 0 <= i < |Last(n, a + b)| ==> Last(n, Last(n, a) + b)[i] == Last(n, a + b)[i];
  }

  /**
    However the marks are spread over rounds, the log is that of one pass over
    all of them, cut down to its last `maxBlocks` blocks.
  */
  lemma {:induction false} SplitsDoNotMatter(maxBlocks: nat, rounds: seq<seq<Stamped>>)
    ensures FeedRuns(maxBlocks, rounds) == Feed(maxBlocks, Log(NOTHING, [], false), Flatten(rounds))
    decreases |rounds|
  {
    if rounds != [] {
      hide Feed;
      var before, last := rounds[..|rounds| - 1], rounds[|rounds| - 1];
      SplitsDoNotMatter(maxBlocks, before);
      FlattenAppend(before, [last]);
      assert before + [last] == rounds && Flatten([last]) == last;
      var l := HandleAll(Log(NOTHING, [], false), Flatten(before));
      ForgettingCommutes(maxBlocks, l, last);
      HandleAppend(Log(NOTHING, [], false), Flatten(before), last);
    } else {
      assert FeedRuns(maxBlocks, rounds) == Feed(maxBlocks, Log(NOTHING, [], false), []);
    }
  }

  /** The blocks kept are the newest ones, as many as there are up to the limit, in order. */
  lemma NewestAreKept(maxBlocks: nat, rounds: seq<seq<Stamped>>)
    ensures var kept, all := FeedRuns(maxBlocks, rounds).blocks,
                             HandleAll(Log(NOTHING, [], false), Flatten(rounds)).blocks;
      |kept| == Min(maxBlocks, |all|) && kept == all[|all| - |kept|..]
  {
    hide HandleAll, FeedRuns;
    SplitsDoNotMatter(maxBlocks, rounds);
    var all := HandleAll(Log(NOTHING, [], false), Flatten(rounds)).blocks;
    assert all[0..] == all;
  }

  // ---------------------------------------------------------------------
  // What a block says about the marks before it
  // ---------------------------------------------------------------------

  /** A mark that closes the command in progress. */
  predicate Resets(m: Mark) {
    m.PromptStart? || m.Finished?
  }

  /** The command in progress was started by the mark at `i`. */
  ghost predicate StartedBy(marks: seq<Stamped>, i: int) {
    && 0 <= i < |marks| && marks[i].mark.Executed?
    && (forall k :: i < k < |marks| ==> !Resets(marks[k].mark))
    && (forall k :: 0 <= k < i && marks[k].mark.Executed? ==> exists r :: k < r < i && Resets(marks[r].mark))
  }

  function PendingOf(marks: seq<Stamped>): Pending {
    HandleAll(Log(NOTHING, [], false), marks).pending
  }

  /** Since this execution nothing has closed the command. */
  ghost predicate StillOpen(marks: seq<Stamped>, k: int) {
    0 <= k < |marks| && marks[k].mark.Executed? && forall r :: k < r < |marks| ==> !Resets(marks[r].mark)
  }

  /**
    The start time is that of the first execution since the last prompt or
    finish; there is one exactly when the command has been executed since.
  */
  lemma {:induction false} StartIsFirstExecution(marks: seq<Stamped>)
    ensures forall i :: StartedBy(marks, i) ==> PendingOf(marks).startedAt == Some(marks[i].time)
    ensures PendingOf(marks).startedAt != None ==> exists i :: StartedBy(marks, i)
    ensures PendingOf(marks).startedAt == None <==> forall k :: !StillOpen(marks, k)
    decreases |marks|
  {
    if marks != [] {
      var n := |marks| - 1;
      var before := marks[..n];
      StartIsFirstExecution(before);
      StartStep(marks);
    }
  }

  lemma OpenBefore(marks: seq<Stamped>, k: int)
    requires marks != [] && 0 <= k < |marks| - 1
    ensures StillOpen(marks, k) <==> StillOpen(marks[..|marks| - 1], k) && !Resets(marks[|marks| - 1].mark)
    ensures StartedBy(marks, k) <==> StartedBy(marks[..|marks| - 1], k) && !Resets(marks[|marks| - 1].mark)
  {
    var before := marks[..|marks| - 1];
    assert forall r :: 0 <= r < |before| ==> before[r] == marks[r];
  }

  lemma OpenLast(marks: seq<Stamped>)
    requires marks != []
    ensures var n := |marks| - 1;
      && (StillOpen(marks, n) <==> marks[n].mark.Executed?)
      && (StartedBy(marks, n) <==> marks[n].mark.Executed? && forall k :: !StillOpen(marks[..n], k))
  {
    var n := |marks| - 1;
    var before := marks[..n];
    if marks[n].mark.Executed? && forall k :: !StillOpen(before, k) {
      forall k | 0 <= k < n && marks[k].mark.Executed? ensures exists r :: k < r < n && Resets(marks[r].mark) {
        assert !StillOpen(before, k);
        var r :| k < r < |before| && Resets(before[r].mark);
        assert Resets(marks[r].mark);
      }
    }
    if StartedBy(marks, n) {
      forall k ensures !StillOpen(before, k) {
        if 0 <= k < n && marks[k].mark.Executed? {
          var r :| k < r < n && Resets(marks[r].mark);
          assert Resets(before[r].mark);
        }
      }
    }
  }

  lemma StartStep(marks: seq<Stamped>)
    requires marks != []
    requires var before := marks[..|marks| - 1];
      && (forall i :: StartedBy(before, i) ==> PendingOf(before).startedAt == Some(before[i].time))
      && (PendingOf(before).startedAt != None ==> exists i :: StartedBy(before, i))
      && (PendingOf(before).startedAt == None <==> forall k :: !StillOpen(before, k))
    ensures forall i :: StartedBy(marks, i) ==> PendingOf(marks).startedAt == Some(marks[i].time)
    ensures PendingOf(marks).startedAt != None ==> exists i :: StartedBy(marks, i)
    ensures PendingOf(marks).startedAt == None <==> forall k :: !StillOpen(marks, k)
  {
    var n := |marks| - 1;
    var before := marks[..n];
    var p, q, s := PendingOf(before), PendingOf(marks), marks[n];
    assert q == Note(p, s);
    OpenLast(marks);
    forall k | 0 <= k < n
      ensures StillOpen(marks, k) <==> StillOpen(before, k) && !Resets(s.mark)
      ensures StartedBy(marks, k) <==> StartedBy(before, k) && !Resets(s.mark)
    {
      OpenBefore(marks, k);
    }
    assert forall k :: StillOpen(marks, k) ==> 0 <= k <= n;
    assert forall k :: StillOpen(before, k) ==> 0 <= k < n;
    assert forall k :: StartedBy(marks, k) ==> 0 <= k <= n;
    assert forall k :: StartedBy(before, k) ==> 0 <= k < n;
    hide StillOpen, StartedBy, PendingOf;
    if p.startedAt != None {
      var i :| StartedBy(before, i);
      var k :| StillOpen(before, k);
      assert !Resets(s.mark) ==> StartedBy(marks, i) && StillOpen(marks, k);
    }
  }

  /** The command in progress was written by the mark at `i`. */
  ghost predicate NamedBy(marks: seq<Stamped>, i: int) {
    && 0 <= i < |marks| && marks[i].mark.CommandLine?
    && forall k :: i < k < |marks| ==>
         !marks[k].mark.CommandLine? && !marks[k].mark.CommandStart? && !Resets(marks[k].mark)
  }

  /** The directory was told by the mark at `i`. */
  ghost predicate PlacedBy(marks: seq<Stamped>, i: int) {
    && 0 <= i < |marks| && TellsPlace(marks[i].mark)
    && forall k :: i < k < |marks| ==> !TellsPlace(marks[k].mark)
  }

  predicate TellsPlace(m: Mark) {
    m.Cwd? && m.path != ""
  }

  /** A mark behind which the output of a command may begin, at a known offset. */
  predicate OpensOutput(s: Stamped) {
    (s.mark.CommandStart? || s.mark.Executed?) && s.at != None
  }

  predicate Restarts(m: Mark) {
    m.CommandStart? || Resets(m)
  }

  /** The mark at `i` is the first behind which output may begin since the command was last restarted. */
  ghost predicate OutputFrom(marks: seq<Stamped>, i: int) {
    && 0 <= i < |marks| && OpensOutput(marks[i])
    && (forall k :: i < k < |marks| ==> !Restarts(marks[k].mark))
    && (marks[i].mark.CommandStart? || forall k :: 0 <= k < i ==> !OpenAt(marks, k, i))
  }

  /** Output may begin behind the mark at `k`, and up to `n` the command has not been restarted. */
  ghost predicate OpenAt(marks: seq<Stamped>, k: int, n: int)
    requires 0 <= k < n <= |marks|
  {
    OpensOutput(marks[k]) && forall r :: k < r < n ==> !Restarts(marks[r].mark)
  }

  lemma {:induction false} CommandIsLastLine(marks: seq<Stamped>)
    ensures forall i :: NamedBy(marks, i) ==> PendingOf(marks).command == marks[i].mark.text
    ensures (forall i :: !NamedBy(marks, i)) ==> PendingOf(marks).command == ""
    decreases |marks|
  {
    if marks != [] {
      var n := |marks| - 1;
      var before := marks[..n];
      CommandIsLastLine(before);
      assert PendingOf(marks) == Note(PendingOf(before), marks[n]);
      hide PendingOf;
      assert forall k :: 0 <= k < n ==> before[k] == marks[k];
      var m := marks[n].mark;
      forall i | 0 <= i < n
        ensures NamedBy(marks, i) <==> NamedBy(before, i) && !m.CommandLine? && !m.CommandStart? && !Resets(m)
      {
      }
      assert NamedBy(marks, n) <==> m.CommandLine?;
      assert forall i :: NamedBy(before, i) ==> 0 <= i < n;
      hide NamedBy;
    }
  }

  lemma {:induction false} PlaceIsLastTold(marks: seq<Stamped>)
    ensures forall i :: PlacedBy(marks, i) ==> PendingOf(marks).cwd == Some(marks[i].mark.path)
    ensures (forall i :: !PlacedBy(marks, i)) ==> PendingOf(marks).cwd == None
    decreases |marks|
  {
    if marks != [] {
      var n := |marks| - 1;
      var before := marks[..n];
      PlaceIsLastTold(before);
      assert PendingOf(marks) == Note(PendingOf(before), marks[n]);
      hide PendingOf;
      assert forall k :: 0 <= k < n ==> before[k] == marks[k];
      forall i | 0 <= i < n ensures PlacedBy(marks, i) <==> PlacedBy(before, i) && !TellsPlace(marks[n].mark) {
      }
      assert PlacedBy(marks, n) <==> TellsPlace(marks[n].mark);
      assert forall i :: PlacedBy(before, i) ==> 0 <= i < n;
      hide PlacedBy;
    }
  }

  lemma OutputBefore(marks: seq<Stamped>, i: int)
    requires marks != [] && 0 <= i < |marks| - 1
    ensures var n := |marks| - 1;
      OutputFrom(marks, i) <==> OutputFrom(marks[..n], i) && !Restarts(marks[n].mark)
  {
    var before := marks[..|marks| - 1];
    assert forall k :: 0 <= k < |before| ==> before[k] == marks[k];
    hide OpensOutput, Restarts;
    forall k | 0 <= k < i ensures OpenAt(marks, k, i) == OpenAt(before, k, i) {
    }
    hide OpenAt;
  }

  lemma OutputLast(marks: seq<Stamped>)
    requires marks != []
    ensures var n := |marks| - 1;
      OutputFrom(marks, n) <==>
        OpensOutput(marks[n]) && (marks[n].mark.CommandStart? || forall k :: 0 <= k < n ==> !OpenAt(marks, k, n))
  {
  }

  /** An offset is known exactly when a mark with an offset stands since the last restart, or is that restart. */
  lemma OpenIsOutput(marks: seq<Stamped>, n: nat)
    requires n < |marks|
    ensures (exists k :: 0 <= k < n && OpenAt(marks, k, n)) <==> exists k :: OutputFrom(marks[..n], k)
  {
    var before := marks[..n];
    assert forall k :: 0 <= k < n ==> before[k] == marks[k];
    if k :| 0 <= k < n && OpenAt(marks, k, n) {
      var first := FirstOpen(before, k);
      assert OutputFrom(before, first);
    }
    if k :| OutputFrom(before, k) {
      assert OpenAt(marks, k, n);
    }
  }

  lemma {:induction false} FirstOpen(marks: seq<Stamped>, k: nat) returns (first: nat)
    requires k < |marks| && OpenAt(marks, k, |marks|)
    ensures OutputFrom(marks, first)
    decreases k
  {
    first := k;
    if !marks[k].mark.CommandStart? {
      if j :| 0 <= j < k && OpenAt(marks, j, k) {
        assert OpenAt(marks, j, |marks|) by {
          forall r | j < r < |marks| ensures !Restarts(marks[r].mark) {
          }
        }
        first := FirstOpen(marks, j);
      }
    }
  }

  /** The output offset is that of the first mark that may open it since the last restart, if there is one. */
  lemma {:induction false} OutputIsFirstOpened(marks: seq<Stamped>)
    ensures forall i :: OutputFrom(marks, i) ==> PendingOf(marks).outputSeq == marks[i].at
    ensures (forall i :: !OutputFrom(marks, i)) ==> PendingOf(marks).outputSeq == None
    decreases |marks|
  {
    if marks != [] {
      var n := |marks| - 1;
      var before := marks[..n];
      OutputIsFirstOpened(before);
      assert PendingOf(marks) == Note(PendingOf(before), marks[n]);
      OutputLast(marks);
      OpenIsOutput(marks, n);
      forall i | 0 <= i < n ensures OutputFrom(marks, i) <==> OutputFrom(before, i) && !Restarts(marks[n].mark) {
        OutputBefore(marks, i);
      }
      assert forall i :: OutputFrom(before, i) ==> 0 <= i < n && before[i] == marks[i] && marks[i].at != None;
      assert forall i :: OutputFrom(marks, i) ==> 0 <= i <= n;
      hide OutputFrom, OpenAt, PendingOf;
    }
  }

  /** What a block copies from the command in progress, and what it takes from the mark that ends it. */
  ghost predicate Ends(b: Block, p: Pending, s: Stamped)
    requires s.mark.Finished?
  {
    && b.command == p.command && b.cwd == p.cwd && b.startedAt == p.startedAt && b.outputSeq == p.outputSeq
    && b.exitCode == s.mark.exitCode && b.endedAt == s.time
    && b.durationMs == (if b.startedAt == None then None else Some(Truncate((s.time - b.startedAt.value) * 1000.0)))
    && (b.status == Ok <==> s.mark.exitCode == Some(0))
    && (b.status == Running <==> s.mark.exitCode == None)
  }

  lemma OneBlockMore(marks: seq<Stamped>, s: Stamped)
    requires s.mark.Finished?
    ensures var blocks := HandleAll(Log(NOTHING, [], false), marks).blocks;
      var all := HandleAll(Log(NOTHING, [], false), marks + [s]).blocks;
      |all| == |blocks| + 1 && all[..|blocks|] == blocks && Ends(all[|blocks|], PendingOf(marks), s)
  {
    assert (marks + [s])[..|marks|] == marks;
    hide Truncate;
  }

  /**
    A finished command adds one block.  It tells the last command line and the
    last directory, the first execution and the first offset of its output, and
    its status says whether an exit code is known and whether it is zero.
  */
  lemma BlockTells(marks: seq<Stamped>, s: Stamped)
    requires s.mark.Finished?
    ensures var blocks := HandleAll(Log(NOTHING, [], false), marks).blocks;
      var all := HandleAll(Log(NOTHING, [], false), marks + [s]).blocks;
      && |all| == |blocks| + 1 && all[..|blocks|] == blocks
      && var b := all[|blocks|];
      && Ends(b, PendingOf(marks), s)
      && (forall i :: NamedBy(marks, i) ==> b.command == marks[i].mark.text)
      && ((forall i :: !NamedBy(marks, i)) ==> b.command == "")
      && (forall i :: PlacedBy(marks, i) ==> b.cwd == Some(marks[i].mark.path))
      && ((forall i :: !PlacedBy(marks, i)) ==> b.cwd == None)
      && (forall i :: StartedBy(marks, i) ==> b.startedAt == Some(marks[i].time))
      && ((forall i :: !StartedBy(marks, i)) ==> b.startedAt == None)
      && (forall i :: OutputFrom(marks, i) ==> b.outputSeq == marks[i].at)
      && ((forall i :: !OutputFrom(marks, i)) ==> b.outputSeq == None)
  {
    hide Truncate, HandleAll, PendingOf, StillOpen;
    OneBlockMore(marks, s);
    CommandIsLastLine(marks);
    PlaceIsLastTold(marks);
    StartIsFirstExecution(marks);
    OutputIsFirstOpened(marks);
    assert forall i :: NamedBy(marks, i) ==> 0 <= i < |marks| && marks[i].mark.CommandLine?;
    assert forall i :: PlacedBy(marks, i) ==> 0 <= i < |marks| && marks[i].mark.Cwd?;
    assert forall i :: StartedBy(marks, i) ==> 0 <= i < |marks|;
    assert forall i :: OutputFrom(marks, i) ==> 0 <= i < |marks|;
    hide NamedBy, PlacedBy, StartedBy, OutputFrom;
  }

  /** The next command starts from nothing but the directory. */
  lemma FinishStartsAfresh(marks: seq<Stamped>, s: Stamped)
    requires Resets(s.mark)
    ensures PendingOf(marks + [s]) == Pending("", PendingOf(marks).cwd, None, None)
  {
    assert (marks + [s])[..|marks|] == marks;
  }

  /**
    A command is interrupted; the next one, announced by `633;A`, inherits its start and
    takes three seconds, not one.
  */
  lemma StartIsInherited(next: Mark)
    requires next == PlainPrompt || next == PromptStart
    ensures var marks := [Stamped(Executed, None, 1.0), Stamped(next, None, 2.0), Stamped(Executed, None, 3.0),
                          Stamped(Finished(Some(0)), None, 4.0)];
      var blocks := HandleAll(Log(NOTHING, [], false), marks).blocks;
      && |blocks| == 1
      && blocks[0].startedAt == Some(if next == PlainPrompt then 1.0 else 3.0)
      && blocks[0].durationMs == Some(if next == PlainPrompt then 3000 else 1000)
  {
    var log := Log(NOTHING, [], false);
    var a, b, c, d := Stamped(Executed, None, 1.0), Stamped(next, None, 2.0), Stamped(Executed, None, 3.0),
                      Stamped(Finished(Some(0)), None, 4.0);
    var marks := [a, b, c, d];
    assert marks[..3] == [a, b, c] && [a, b, c][..2] == [a, b] && [a, b][..1] == [a] && [a][..0] == [];
    assert HandleAll(log, []) == log;
    assert HandleAll(log, [a]) == Handle(log, a);
    assert HandleAll(log, [a, b]) == Handle(Handle(log, a), b);
    assert HandleAll(log, [a, b, c]) == Handle(Handle(Handle(log, a), b), c);
    assert HandleAll(log, marks) == Handle(Handle(Handle(Handle(log, a), b), c), d);
    hide HandleAll;
    ThousandTimes();
  }

  /** A duration is cut to whole milliseconds, toward zero when the clock went back. */
  lemma TruncateIsTowardZero(x: real, n: int)
    ensures n == Truncate(x) <==>
      if x >= 0.0 then n as real <= x < n as real + 1.0 else n as real - 1.0 < x <= n as real
  {
    var low := x.Floor;
    assert low as real <= x < low as real + 1.0;
    assert (-x).Floor as real <= -x < (-x).Floor as real + 1.0;
  }

  lemma ThousandTimes()
    ensures Truncate((4.0 - 1.0) * 1000.0) == 3000 && Truncate((4.0 - 3.0) * 1000.0) == 1000
  {
    assert (4.0 - 1.0) * 1000.0 == 3000.0 && (4.0 - 3.0) * 1000.0 == 1000.0;
  }
}
