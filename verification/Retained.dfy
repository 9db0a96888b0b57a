/** What a scrollback buffer must not give up: a lower bound to the upper one of module RingRuns. */
module Retained {
  import opened Bytes
  import opened Ansi
  import opened RingSpec
  import opened RingRuns

  // ---------------------------------------------------------------------
  // One eviction, chunk by chunk
  // ---------------------------------------------------------------------

  /** How many bytes stand behind chunk `i`. */
  function Behind(r: Ring, i: nat): nat
    requires i < |r.chunks|
  {
    |Flatten(r.chunks[i + 1..])|
  }

  /** The state in which chunk `i` begins, when the first one begins in `resume`. */
  function StateBefore(r: Ring, resume: State, i: nat): State
    requires Shaped(r) && i <= |r.chunks|
  {
    if i == 0 then resume else r.inside[i - 1]
  }

  /**
    A chunk in line for eviction goes whole if the budget is met without it, or if
    it begins inside a sequence and is not the last one.
  */
  predicate Goes(r: Ring, resume: State, i: nat)
    requires Shaped(r) && i < |r.chunks|
  {
    Behind(r, i) >= r.maxBytes || (StateBefore(r, resume, i) != Outside && i < |r.chunks| - 1)
  }

  /** `d` is `r` without its first `n` chunks. */
  ghost predicate Without(r: Ring, d: Ring, n: nat)
    requires Shaped(r)
  {
    && n <= |r.chunks| && d.chunks == r.chunks[n..] && d.inside == r.inside[n..]
    && d.maxBytes == r.maxBytes && d.endSeq == r.endSeq && d.tracker == r.tracker
  }

  /** The bytes counted are the bytes held. */
  ghost predicate Counted(r: Ring) {
    Shaped(r) && r.size == |Flatten(r.chunks)| && r.maxBytes > 0
  }

  lemma PopCounted(r: Ring)
    requires Counted(r) && r.chunks != []
    ensures Counted(Pop(r)) && Without(r, Pop(r), 1) && Pop(r).size == Behind(r, 0)
  {
  }

  lemma WithoutMore(r: Ring, d: Ring, e: Ring, n: nat, m: nat)
    requires Shaped(r) && Without(r, d, n) && Shaped(d) && Without(d, e, m)
    ensures Without(r, e, n + m)
  {
    assert r.chunks[n..][m..] == r.chunks[n + m..];
    assert r.inside[n..][m..] == r.inside[n + m..];
  }

  /** Being in line is the same seen from a later start. */
  lemma GoesLater(r: Ring, resume: State, d: Ring, n: nat, i: nat)
    requires Shaped(r) && Without(r, d, n) && n + i < |r.chunks|
    ensures Goes(d, StateBefore(r, resume, n), i) == Goes(r, resume, n + i)
  {
    assert d.chunks[i + 1..] == r.chunks[n + i + 1..];
  }

  /** `d` is what is left of `r` once its first `n` chunks have gone, all of them rightly; it begins in `s`. */
  ghost predicate Leaves(r: Ring, resume: State, n: nat, d: Ring, s: State)
    requires Shaped(r)
  {
    && Counted(d) && Without(r, d, n) && s == StateBefore(r, resume, n)
    && forall i :: 0 <= i < n ==> Goes(r, resume, i)
  }

  lemma LeavesMore(r: Ring, resume: State, n: nat, d: Ring, s: State, m: nat, e: Ring, t: State)
    requires Shaped(r) && Leaves(r, resume, n, d, s) && Leaves(d, s, m, e, t)
    ensures Leaves(r, resume, n + m, e, t)
  {
    hide Goes, Flatten;
    WithoutMore(r, d, e, n, m);
    forall i | 0 <= i < n + m ensures Goes(r, resume, i) {
      if i >= n {
        GoesLater(r, resume, d, n, i - n);
        assert Goes(d, s, i - n);
      }
    }
  }

  lemma HeadGoes(r: Ring, resume: State)
    requires Counted(r) && r.chunks != []
    ensures Goes(r, resume, 0) <==> r.size - |r.chunks[0]| >= r.maxBytes || (resume != Outside && |r.chunks| > 1)
    ensures Goes(r, resume, 0) ==> Leaves(r, resume, 1, Pop(r), r.inside[0])
  {
    PopCounted(r);
  }

  lemma NothingGoes(r: Ring, resume: State)
    requires Counted(r)
    ensures Leaves(r, resume, 0, r, resume)
  {
  }

  /** Chunks that begin inside a sequence go until one closes it or is the last. */
  lemma {:induction false} InsideStops(r: Ring, resume: State) returns (n: nat)
    requires Counted(r)
    ensures var (d, s) := PopInside(r, resume); Leaves(r, resume, n, d, s) && (s == Outside || |d.chunks| <= 1)
    decreases |r.chunks|
  {
    hide Goes, Flatten, Leaves;
    NothingGoes(r, resume);
    n := 0;
    if resume != Outside && |r.chunks| > 1 {
      PopCounted(r);
      HeadGoes(r, resume);
      var m := InsideStops(Pop(r), r.inside[0]);
      n := 1 + m;
      var (d, s) := PopInside(Pop(r), r.inside[0]);
      LeavesMore(r, resume, 1, Pop(r), r.inside[0], m, d, s);
    }
  }

  lemma {:induction false} EvictStops(r: Ring, resume: State) returns (n: nat)
    requires Counted(r) && (resume == Outside || |r.chunks| <= 1)
    ensures var (d, s) := Evict(r, resume); Leaves(r, resume, n, d, s) && (d.chunks != [] ==> !Goes(d, s, 0))
    decreases |r.chunks|
  {
    hide PopInside, Goes, Flatten, Leaves;
    NothingGoes(r, resume);
    n := 0;
    if r.chunks != [] {
      HeadGoes(r, resume);
      if r.size - |r.chunks[0]| >= r.maxBytes {
        PopCounted(r);
        var m := InsideStops(Pop(r), r.inside[0]);
        var (d, s) := PopInside(Pop(r), r.inside[0]);
        LeavesMore(r, resume, 1, Pop(r), r.inside[0], m, d, s);
        LeftIsCounted(r, resume, 1 + m, d, s);
        var k := EvictStops(d, s);
        n := 1 + m + k;
        LeavesMore(r, resume, 1 + m, d, s, k, Evict(d, s).0, Evict(d, s).1);
      }
    }
  }

  lemma LeftIsCounted(r: Ring, resume: State, n: nat, d: Ring, s: State)
    requires Shaped(r) && Leaves(r, resume, n, d, s)
    ensures Counted(d)
  {
  }

  /** Eviction takes the chunks in line up to the first that need not go, and no more. */
  lemma EvictIsFirst(r: Ring) returns (n: nat)
    requires Counted(r)
    ensures var (d, s) := Evict(r, Outside); Without(r, d, n) && s == StateBefore(r, Outside, n)
    ensures n <= |r.chunks|
    ensures forall i :: 0 <= i < n ==> Goes(r, Outside, i)
    ensures n < |r.chunks| ==> !Goes(r, Outside, n)
  {
    hide Goes, Flatten, Evict;
    n := EvictStops(r, Outside);
    if n < |r.chunks| { GoesLater(r, Outside, Evict(r, Outside).0, n, 0); }
  }

  // ---------------------------------------------------------------------
  // Every run
  // ---------------------------------------------------------------------

  /** A place worth keeping: within the budget, between sequences, and where a character may begin. */
  ghost predicate Wanted(maxBytes: int, stream: bytes, origin: nat, q: int) {
    && origin <= q <= |stream| && |stream| - q <= maxBytes
    && StateAt(stream, origin, q) == Outside
    && (q < |stream| ==> !IsContinuation(stream[q]))
  }

  /** The offset at which chunk `i` begins. */
  ghost function StartOf(r: Ring, i: nat): int
    requires i <= |r.chunks|
  {
    Base(r) + |Flatten(r.chunks[..i])|
  }

  /** Chunk `i` (or the empty one at the end) begins between sequences, and `q` lies in it or at its end. */
  ghost predicate LiesIn(r: Ring, stream: bytes, origin: nat, i: nat, q: int) {
    && i <= |r.chunks| && origin <= StartOf(r, i) <= q <= |stream|
    && StateAt(stream, origin, StartOf(r, i)) == Outside
    && q <= StartOf(r, i) + if i < |r.chunks| then |r.chunks[i]| else 0
  }

  ghost predicate Held(r: Ring, stream: bytes, origin: nat, q: int) {
    exists i: nat :: LiesIn(r, stream, origin, i, q)
  }

  /** A place held lies in the head chunk, which then begins between sequences, or behind it. */
  lemma HeldOf(r: Ring, stream: bytes, origin: nat, q: int)
    requires Tracks(r, stream, origin) && Held(r, stream, origin, q)
    ensures Base(r) <= q <= |stream|
    ensures r.chunks != [] ==>
              || Held(Pop(r), stream, origin, q)
              || (StateAt(stream, origin, Base(r)) == Outside && q <= Base(r) + |r.chunks[0]|)
  {
    hide StateAt;
    var i: nat :| LiesIn(r, stream, origin, i, q);
    if i > 0 {
      assert r.chunks[..i][1..] == r.chunks[1..][..i - 1];
      assert LiesIn(Pop(r), stream, origin, i - 1, q);
    } else {
      assert r.chunks[..0] == [];
    }
  }

  lemma BaseIsHeld(r: Ring, stream: bytes, origin: nat, q: int)
    requires Tracks(r, stream, origin) && StateAt(stream, origin, Base(r)) == Outside
    requires Base(r) <= q <= if r.chunks == [] then Base(r) else Base(r) + |r.chunks[0]|
    ensures Held(r, stream, origin, q)
  {
    hide StateAt;
    if r.chunks != [] { HeadIsStream(r, stream, origin); }
    assert r.chunks[..0] == [];
    assert LiesIn(r, stream, origin, 0, q);
  }

  /** Shortening the head leaves what lies behind it where it is. */
  lemma SetHeadHolds(r: Ring, head: bytes, stream: bytes, origin: nat, q: int)
    requires Shaped(r) && r.chunks != [] && Held(Pop(r), stream, origin, q)
    ensures Held(SetHead(r, head), stream, origin, q)
  {
    hide StateAt;
    var p, d := Pop(r), SetHead(r, head);
    var i: nat :| LiesIn(p, stream, origin, i, q);
    assert d.chunks[..i + 1][1..] == p.chunks[..i];
    assert StartOf(d, i + 1) == StartOf(p, i);
    assert LiesIn(d, stream, origin, i + 1, q);
  }

  /** The head goes because the budget is met without it, or because the sequence it resumes in is not over. */
  lemma PopHolds(r: Ring, stream: bytes, origin: nat, q: int)
    requires Tracks(r, stream, origin) && r.chunks != []
    requires Wanted(r.maxBytes, stream, origin, q) && Held(r, stream, origin, q)
    requires r.size - |r.chunks[0]| >= r.maxBytes || StateAt(stream, origin, Base(r)) != Outside
    ensures Tracks(Pop(r), stream, origin) && Held(Pop(r), stream, origin, q)
  {
    hide StateAt, Held;
    PopTracks(r, stream, origin);
    HeldOf(r, stream, origin, q);
    if !Held(Pop(r), stream, origin, q) { BaseIsHeld(Pop(r), stream, origin, q); }
  }

  lemma {:induction false} PopInsideHolds(r: Ring, resume: State, stream: bytes, origin: nat, q: int)
    requires Tracks(r, stream, origin) && resume == StateAt(stream, origin, Base(r))
    requires Wanted(r.maxBytes, stream, origin, q) && Held(r, stream, origin, q)
    ensures Held(PopInside(r, resume).0, stream, origin, q)
    decreases |r.chunks|
  {
    hide Held, StateAt, Wanted;
    if resume != Outside && |r.chunks| > 1 {
      PopTracks(r, stream, origin);
      PopHolds(r, stream, origin, q);
      PopInsideHolds(Pop(r), r.inside[0], stream, origin, q);
    }
  }

  lemma {:induction false} EvictHolds(r: Ring, resume: State, stream: bytes, origin: nat, q: int)
    requires Tracks(r, stream, origin)
    requires Wanted(r.maxBytes, stream, origin, q) && Held(r, stream, origin, q)
    ensures Held(Evict(r, resume).0, stream, origin, q)
    decreases |r.chunks|
  {
    hide Held, StateAt, Wanted;
    if r.chunks != [] && r.size - |r.chunks[0]| >= r.maxBytes {
      PopTracks(r, stream, origin);
      PopHolds(r, stream, origin, q);
      PopInsideHolds(Pop(r), r.inside[0], stream, origin, q);
      PopInsideTracks(Pop(r), r.inside[0], stream, origin);
      var (r1, s1) := PopInside(Pop(r), r.inside[0]);
      EvictHolds(r1, s1, stream, origin, q);
    }
  }

  lemma ReanchorHolds(r: Ring, resume: State, stream: bytes, origin: nat, q: int)
    requires Tracks(r, stream, origin) && resume == StateAt(stream, origin, Base(r))
    requires Wanted(r.maxBytes, stream, origin, q) && Held(r, stream, origin, q)
    ensures Held(Reanchor(r, resume), stream, origin, q)
  {
    hide Held, StateAt, Wanted, Run, SkipToBoundary;
    if r.chunks != [] && resume != Outside {
      PopHolds(r, stream, origin, q);
      SetHeadHolds(r, SkipToBoundary(resume, r.chunks[0]), stream, origin, q);
    }
  }

  /** `k` is a clean cut of the head, or its end. */
  ghost predicate CleanAt(chunk: bytes, k: int) {
    0 <= k <= |chunk| && Run(Outside, chunk[..k]) == Outside && (k < |chunk| ==> !IsContinuation(chunk[k]))
  }

  lemma CleanInStream(r: Ring, stream: bytes, origin: nat, q: int)
    requires Tracks(r, stream, origin) && r.chunks != [] && Wanted(r.maxBytes, stream, origin, q)
    requires StateAt(stream, origin, Base(r)) == Outside && Base(r) <= q <= Base(r) + |r.chunks[0]|
    ensures CleanAt(r.chunks[0], q - Base(r))
    ensures r.size - r.maxBytes <= q - Base(r)
  {
    HeadIsStream(r, stream, origin);
    StateAtPlus(stream, origin, Base(r), q);
    assert stream[Base(r)..q] == r.chunks[0][..q - Base(r)];
  }

  /** A cut of the head does not pass a clean place within the budget. */
  lemma CutIsShort(r: Ring, sizeBefore: int, k: int) returns (d: nat)
    requires Shaped(r) && Cuttable(r) && r.chunks != [] && r.chunks[0] != []
    requires CleanAt(r.chunks[0], k) && r.size - r.maxBytes <= k
    ensures d < |r.chunks[0]| && d <= k && Run(Outside, r.chunks[0][..d]) == Outside
    ensures CutHead(r, sizeBefore) == SetHead(r, r.chunks[0][d..])
  {
    hide CutTail, AlignUtf8;
    var chunk := r.chunks[0];
    assert [chunk] + r.chunks[1..] == r.chunks;
    assert chunk[..0] == [] && chunk[0..] == chunk && Run(Outside, []) == Outside && SetHead(r, chunk) == r;
    d := 0;
    if r.size > r.maxBytes {
      var c := CutTailIsClean(chunk, r.size - r.maxBytes);
      if c < |chunk| { d := c; }
    } else if r.size < sizeBefore {
      AlignIsSuffix(chunk);
      AlignStaysOutside(chunk, 0);
      if Orphans(chunk, 0) < |chunk| { d := Orphans(chunk, 0); }
    }
  }

  lemma ShortCutHolds(r: Ring, sizeBefore: int, stream: bytes, origin: nat, q: int)
    requires Tracks(r, stream, origin) && Cuttable(r) && r.chunks != [] && r.chunks[0] != []
    requires Wanted(r.maxBytes, stream, origin, q)
    requires StateAt(stream, origin, Base(r)) == Outside && Base(r) <= q <= Base(r) + |r.chunks[0]|
    ensures Held(CutHead(r, sizeBefore), stream, origin, q)
  {
    hide Held, StateAt, Run, CutTail, Wanted;
    var chunk := r.chunks[0];
    CleanInStream(r, stream, origin, q);
    var d := CutIsShort(r, sizeBefore, q - Base(r));
    SetHeadTracks(r, stream, origin, d);
    CutStaysOutside(r, stream, origin, d);
    BaseIsHeld(SetHead(r, chunk[d..]), stream, origin, q);
  }

  lemma CutHeadHolds(r: Ring, sizeBefore: int, stream: bytes, origin: nat, q: int)
    requires Tracks(r, stream, origin) && Cuttable(r)
    requires Wanted(r.maxBytes, stream, origin, q) && Held(r, stream, origin, q)
    ensures Held(CutHead(r, sizeBefore), stream, origin, q)
  {
    if r.chunks != [] {
      hide Held, StateAt, Run, CutTail, Wanted, AlignUtf8, Flatten;
      HeldOf(r, stream, origin, q);
      HeadIsStream(r, stream, origin);
      var chunk := r.chunks[0];
      assert chunk != [];
      if Held(Pop(r), stream, origin, q) {
        SetHeadHolds(r, CutTail(chunk, if r.size > r.maxBytes then r.size - r.maxBytes else 0), stream, origin, q);
        SetHeadHolds(r, AlignUtf8(chunk), stream, origin, q);
      } else {
        ShortCutHolds(r, sizeBefore, stream, origin, q);
      }
    }
  }

  lemma CutStaysOutside(r: Ring, stream: bytes, origin: nat, d: nat)
    requires Tracks(r, stream, origin) && r.chunks != [] && d < |r.chunks[0]|
    requires StateAt(stream, origin, Base(r)) == Outside && Run(Outside, r.chunks[0][..d]) == Outside
    ensures Base(r) + d <= |stream| && StateAt(stream, origin, Base(r) + d) == Outside
  {
    HeadIsStream(r, stream, origin);
    StateAtPlus(stream, origin, Base(r), Base(r) + d);
    assert stream[Base(r)..Base(r) + d] == r.chunks[0][..d];
  }

  lemma TrimHolds(r: Ring, stream: bytes, origin: nat, q: int)
    requires Tracks(r, stream, origin)
    requires Wanted(r.maxBytes, stream, origin, q) && Held(r, stream, origin, q)
    ensures Held(Trim(r), stream, origin, q)
  {
    hide Held, StateAt, Reanchor, CutHead, Evict, Wanted;
    var (r1, s1) := Evict(r, Outside);
    EvictLeavesLittle(r, Outside);
    EvictTracks(r, Outside, stream, origin);
    EvictHolds(r, Outside, stream, origin, q);
    if r1 != r {
      ReanchorHolds(r1, s1, stream, origin, q);
      if r1.chunks != [] { ReanchorTracks(r1, s1, stream, origin); }
    }
    NotReanchored(r);
    ReanchorCuttable(r1, s1);
    CutHeadHolds(Reanchor(r1, s1), r.size, stream, origin, q);
  }

  lemma PushHolds(r: Ring, stream: bytes, origin: nat, data: bytes, q: int)
    requires Tracks(r, stream, origin) && data != [] && origin <= q <= |stream + data|
    requires Held(r, stream, origin, q) || (|stream| <= q && StateAt(stream, origin, |stream|) == Outside)
    ensures Held(Push(r, data), stream + data, origin, q)
  {
    PushTracks(r, stream, origin, data);
    TrackedSize(r, stream, origin);
    hide Run, StateAt, Tracks, Flatten;
    var p, all := Push(r, data), stream + data;
    assert forall i: nat :: i <= |r.chunks| ==> p.chunks[..i] == r.chunks[..i];
    if i: nat :| LiesIn(r, stream, origin, i, q) {
      assert StartOf(p, i) == StartOf(r, i);
      assert LiesIn(p, all, origin, i, q);
    } else {
      assert r.chunks[..|r.chunks|] == r.chunks;
      assert StartOf(p, |r.chunks|) == |stream|;
      assert LiesIn(p, all, origin, |r.chunks|, q);
    }
  }

  lemma TrackedSize(r: Ring, stream: bytes, origin: nat)
    requires Tracks(r, stream, origin)
    ensures Base(r) + |Flatten(r.chunks)| == |stream| == r.endSeq
  {
  }

  /** An append gives up nothing wanted. */
  lemma AppendHolds(r: Ring, stream: bytes, origin: nat, data: bytes, q: int)
    requires Tracks(r, stream, origin)
    requires Wanted(r.maxBytes, stream + data, origin, q)
    requires Held(r, stream, origin, q) || (|stream| <= q && StateAt(stream, origin, |stream|) == Outside)
    ensures data != [] ==> Held(Append(r, data), stream + data, origin, q)
  {
    hide Held, Run, StateAt, Trim;
    if data != [] {
      PushTracks(r, stream, origin, data);
      PushHolds(r, stream, origin, data, q);
      TrimHolds(Push(r, data), stream + data, origin, q);
    }
  }

  lemma EndIsHeld(r: Ring, stream: bytes, origin: nat)
    requires Tracks(r, stream, origin) && StateAt(stream, origin, |stream|) == Outside
    ensures Held(r, stream, origin, |stream|)
  {
    hide StateAt;
    assert r.chunks[..|r.chunks|] == r.chunks;
    assert LiesIn(r, stream, origin, |r.chunks|, |stream|);
  }

  lemma {:induction false} HistoryGrows(ops: seq<Op>, n: nat)
    requires n <= |ops|
    ensures |History(ops[..n])| <= |History(ops)|
    decreases |ops|
  {
    if n == |ops| {
      assert ops[..n] == ops;
    } else {
      HistoryGrows(ops[..|ops| - 1], n);
      assert ops[..|ops| - 1][..n] == ops[..n];
    }
  }

  /** Offset `q` lies in read `n` or at its end, and that read begins between sequences. */
  ghost predicate InRead(ops: seq<Op>, n: nat, q: int)
    requires n < |ops|
  {
    var s := |History(ops[..n])|;
    && Origin(ops) <= s <= q <= |History(ops[..n + 1])| && s <= |History(ops)|
    && StateAt(History(ops), Origin(ops), s) == Outside
  }

  lemma AppendNothing(r: Ring)
    requires Shaped(r)
    ensures Append(r, []) == r
  {
  }

  /** What is wanted now, in an earlier read, was wanted before the last append. */
  lemma EarlierRead(before: seq<Op>, ops: seq<Op>, n: nat, q: int, maxBytes: int)
    requires |ops| > 0 && before == ops[..|ops| - 1] && ops[|ops| - 1].Feed? && n < |before|
    requires InRead(ops, n, q) && Wanted(maxBytes, History(ops), Origin(ops), q)
    ensures InRead(before, n, q) && Wanted(maxBytes, History(before), Origin(before), q)
  {
    assert before[..n] == ops[..n] && before[..n + 1] == ops[..n + 1];
    HistoryGrows(before, n);
    HistoryGrows(before, n + 1);
    var h, o, all := History(before), Origin(before), History(ops);
    forall k | o <= k <= |h| ensures StateAt(all, o, k) == StateAt(h, o, k) {
      assert all[o..k] == h[o..k];
    }
  }

  lemma {:induction false} WantedIsHeld(maxBytes: int, ops: seq<Op>, n: nat, q: int)
    requires maxBytes > 0 && n < |ops| && InRead(ops, n, q)
    requires Wanted(maxBytes, History(ops), Origin(ops), q)
    ensures Held(After(maxBytes, ops), History(ops), Origin(ops), q)
    decreases |ops|
  {
    hide Held, StateAt, Append;
    EveryBuffer(maxBytes, ops);
    if q == |History(ops)| {
      EndIsHeld(After(maxBytes, ops), History(ops), Origin(ops));
    } else {
      assert ops[..|ops|] == ops;
      var before := ops[..|ops| - 1];
      assert before[..n] == ops[..n];
      EveryBuffer(maxBytes, before);
      var r, h, o, data := After(maxBytes, before), History(before), Origin(before), ops[|ops| - 1].data;
      assert History(ops) == h + data;
      if n < |ops| - 1 {
        EarlierRead(before, ops, n, q, maxBytes);
        WantedIsHeld(maxBytes, before, n, q);
      }
      if data == [] {
        assert h + data == h;
        AppendNothing(r);
      } else {
        PushTracks(r, h, o, data);
        AppendHolds(r, h, o, data, q);
      }
    }
  }

  /**
    Over every run: from a place in a read that began between sequences, everything
    is still held if it fits the budget and the place is itself between sequences and
    at the start of a character.
  */
  lemma WantedIsKept(maxBytes: int, ops: seq<Op>, n: nat, q: int)
    requires maxBytes > 0 && n < |ops| && InRead(ops, n, q)
    requires Wanted(maxBytes, History(ops), Origin(ops), q)
    ensures var r, stream := After(maxBytes, ops), History(ops);
      0 <= Base(r) <= q && Flatten(r.chunks) == stream[Base(r)..]
  {
    hide StateAt, Held;
    WantedIsHeld(maxBytes, ops, n, q);
    EveryBuffer(maxBytes, ops);
    HeldOf(After(maxBytes, ops), History(ops), Origin(ops), q);
  }
}
