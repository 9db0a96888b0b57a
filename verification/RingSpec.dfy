/**
  The value held by a scrollback buffer, and what one append does to it.

  `Tracks` ties such a value to the whole stream ever appended; module RingRuns
  says what every reachable buffer keeps.
*/
module RingSpec {
  import opened Bytes
  import opened Ansi

  /**
    `inside[i]` is the parser state recorded after `chunks[i]`; `tracker` is the
    state of the live tracker.
  */
  datatype Ring = Ring(
    maxBytes: int,
    chunks: seq<bytes>,
    inside: seq<State>,
    tracker: State,
    size: int,
    endSeq: int)

  /** One run of bytes and the stream offset of its first byte. */
  datatype Piece = Piece(at: int, data: bytes)

  function Base(r: Ring): int {
    r.endSeq - r.size
  }

  ghost predicate Shaped(r: Ring) {
    |r.chunks| == |r.inside|
  }

  function Empty(maxBytes: int): Ring {
    Ring(maxBytes, [], [], Outside, 0, 0)
  }

  /** Forgets the bytes and the parser, but not the numbering. */
  function Clear(r: Ring): Ring {
    r.(chunks := [], inside := [], size := 0, tracker := Outside)
  }

  // ---------------------------------------------------------------------
  // Eviction
  // ---------------------------------------------------------------------

  function Pop(r: Ring): (r': Ring)
    requires Shaped(r) && r.chunks != []
    ensures Shaped(r')
  {
    r.(chunks := r.chunks[1..], inside := r.inside[1..], size := r.size - |r.chunks[0]|)
  }

  /** Keeps popping while the last chunk popped ended inside a sequence; spares the last one. */
  function PopInside(r: Ring, resume: State): (res: (Ring, State))
    requires Shaped(r)
    ensures Shaped(res.0) && |res.0.chunks| <= |r.chunks|
    ensures res.0.maxBytes == r.maxBytes
    decreases |r.chunks|
  {
    if resume != Outside && |r.chunks| > 1 then PopInside(Pop(r), r.inside[0]) else (r, resume)
  }

  /** Pops the chunks that are wholly in excess; returns the state after the last one popped. */
  function Evict(r: Ring, resume: State): (res: (Ring, State))
    requires Shaped(r)
    ensures Shaped(res.0) && res.0.maxBytes == r.maxBytes
    decreases |r.chunks|
  {
    if r.chunks != [] && r.size - |r.chunks[0]| >= r.maxBytes then
      var (r1, s1) := PopInside(Pop(r), r.inside[0]);
      Evict(r1, s1)
    else (r, resume)
  }

  function SetHead(r: Ring, head: bytes): (r': Ring)
    requires Shaped(r) && r.chunks != []
    ensures Shaped(r')
  {
    r.(chunks := [head] + r.chunks[1..], size := r.size - (|r.chunks[0]| - |head|))
  }

  /** Skips the rest of the sequence that the kept head resumes in. */
  function Reanchor(r: Ring, resume: State): (r': Ring)
    requires Shaped(r)
    ensures Shaped(r') && r'.maxBytes == r.maxBytes
  {
    if r.chunks == [] || resume == Outside then r
    else
      var head := SkipToBoundary(resume, r.chunks[0]);
      if head != [] then SetHead(r, head)
      else if Run(resume, r.chunks[0]) == Outside then Pop(r)
      else r
  }

  predicate IsContinuation(b: byte) {
    0x80 <= b <= 0xBF
  }

  /** How many continuation bytes, at most three, stand at the head of `buf` from `i` on. */
  function Orphans(buf: bytes, i: nat): (j: nat)
    requires i <= |buf| && i <= 3
    ensures i <= j <= |buf| && j <= 3
    ensures forall k :: i <= k < j ==> IsContinuation(buf[k])
    ensures j < |buf| && j < 3 ==> !IsContinuation(buf[j])
    decreases |buf| - i
  {
    if i < |buf| && i < 3 && IsContinuation(buf[i]) then Orphans(buf, i + 1) else i
  }

  function AlignUtf8(buf: bytes): bytes {
    buf[Orphans(buf, 0)..]
  }

  /** The tail of `chunk` once `drop` bytes have gone, moved to a safe cut. */
  function CutTail(chunk: bytes, drop: nat): bytes
    requires drop <= |chunk|
  {
    var s := Run(Outside, chunk[..drop]);
    AlignUtf8(if s != Outside then SkipToBoundary(s, chunk[drop..]) else chunk[drop..])
  }

  /** The head is cut to the budget, or realigned when whole chunks have gone. */
  function CutHead(r: Ring, sizeBefore: int): (r': Ring)
    requires Shaped(r)
    requires r.chunks != [] ==> r.size - r.maxBytes <= |r.chunks[0]|
    ensures Shaped(r') && r'.maxBytes == r.maxBytes
  {
    if r.chunks == [] then r
    else if r.size > r.maxBytes then
      var tail := CutTail(r.chunks[0], r.size - r.maxBytes);
      if tail != [] then SetHead(r, tail) else r
    else if r.size < sizeBefore then
      var aligned := AlignUtf8(r.chunks[0]);
      if aligned != [] then SetHead(r, aligned) else r
    else r
  }

  lemma {:induction false} EvictLeavesLittle(r: Ring, resume: State)
    requires Shaped(r)
    ensures var r' := Evict(r, resume).0;
      r'.chunks != [] ==> r'.size - |r'.chunks[0]| < r'.maxBytes
    decreases |r.chunks|
  {
    if r.chunks != [] && r.size - |r.chunks[0]| >= r.maxBytes {
      var (r1, s1) := PopInside(Pop(r), r.inside[0]);
      EvictLeavesLittle(r1, s1);
    }
  }

  /** What re-anchoring leaves can still be cut to the budget. */
  ghost predicate Cuttable(r: Ring) {
    r.chunks != [] ==> r.size - |r.chunks[0]| < r.maxBytes
  }

  function Trim(r: Ring): (r': Ring)
    requires Shaped(r)
    ensures Shaped(r') && r'.maxBytes == r.maxBytes
  {
    var (r1, s1) := Evict(r, Outside);
    EvictLeavesLittle(r, Outside);
    CutHead(Reanchor(r1, s1), r.size)
  }

  function Push(r: Ring, data: bytes): Ring {
    var s := Run(r.tracker, data);
    r.(chunks := r.chunks + [data], inside := r.inside + [s], tracker := s,
       size := r.size + |data|, endSeq := r.endSeq + |data|)
  }

  function Append(r: Ring, data: bytes): (r': Ring)
    requires Shaped(r)
    ensures Shaped(r') && r'.maxBytes == r.maxBytes
  {
    if data == [] then r else Trim(Push(r, data))
  }

  // ---------------------------------------------------------------------
  // The buffer and the stream
  // ---------------------------------------------------------------------

  /** The parser state at offset `k`, for a parser started at `origin`. */
  ghost function StateAt(stream: bytes, origin: nat, k: int): State
    requires origin <= k <= |stream|
  {
    Run(Outside, stream[origin..k])
  }

  lemma StateAtPlus(stream: bytes, origin: nat, k: int, n: int)
    requires origin <= k <= n <= |stream|
    ensures StateAt(stream, origin, n) == Run(StateAt(stream, origin, k), stream[k..n])
  {
    assert stream[origin..n] == stream[origin..k] + stream[k..n];
    RunAppend(Outside, stream[origin..k], stream[k..n]);
  }

  /** Each recorded state is the state reached by its chunk from the one before. */
  ghost predicate Threaded(chunks: seq<bytes>, inside: seq<State>, s: State)
    requires |chunks| == |inside|
  {
    chunks == []
    || (chunks[0] != [] && inside[0] == Run(s, chunks[0]) && Threaded(chunks[1..], inside[1..], inside[0]))
  }

  lemma {:induction false} ThreadedAppend(chunks: seq<bytes>, inside: seq<State>, s: State, data: bytes)
    requires |chunks| == |inside| && Threaded(chunks, inside, s) && data != []
    ensures Threaded(chunks + [data], inside + [Run(Run(s, Flatten(chunks)), data)], s)
  {
    if chunks != [] {
      ThreadedAppend(chunks[1..], inside[1..], inside[0], data);
      RunAppend(s, chunks[0], Flatten(chunks[1..]));
      assert (chunks + [data])[1..] == chunks[1..] + [data];
      var last := Run(Run(s, Flatten(chunks)), data);
      assert (inside + [last])[1..] == inside[1..] + [last];
    }
  }

  /**
    `stream` is everything ever appended; the parser was last started at
    `origin` (0, or the offset of the last clear).
  */
  ghost predicate Tracks(r: Ring, stream: bytes, origin: nat) {
    && r.maxBytes > 0
    && Shaped(r)
    && r.endSeq == |stream|
    && origin <= Base(r) <= |stream|
    && Flatten(r.chunks) == stream[Base(r)..]
    && r.tracker == StateAt(stream, origin, |stream|)
    && Threaded(r.chunks, r.inside, StateAt(stream, origin, Base(r)))
  }

  /** The head chunk is the stretch of the stream that begins at the base. */
  lemma HeadIsStream(r: Ring, stream: bytes, origin: nat)
    requires Tracks(r, stream, origin) && r.chunks != []
    ensures Base(r) + |r.chunks[0]| <= |stream|
    ensures r.chunks[0] == stream[Base(r)..Base(r) + |r.chunks[0]|]
  {
    var head := r.chunks[0];
    assert Flatten(r.chunks)[..|head|] == head;
  }

  lemma PopTracks(r: Ring, stream: bytes, origin: nat)
    requires Tracks(r, stream, origin) && r.chunks != []
    ensures Tracks(Pop(r), stream, origin)
    ensures Base(Pop(r)) == Base(r) + |r.chunks[0]| > Base(r)
    ensures StateAt(stream, origin, Base(Pop(r))) == r.inside[0]
  {
    HeadIsStream(r, stream, origin);
    StateAtPlus(stream, origin, Base(r), Base(Pop(r)));
    assert Flatten(r.chunks[1..]) == Flatten(r.chunks)[|r.chunks[0]|..];
  }

  lemma SetHeadTracks(r: Ring, stream: bytes, origin: nat, d: nat)
    requires Tracks(r, stream, origin) && r.chunks != [] && d < |r.chunks[0]|
    ensures var r' := SetHead(r, r.chunks[0][d..]);
      Tracks(r', stream, origin) && Base(r') == Base(r) + d
  {
    hide Run;
    var head := r.chunks[0];
    var r' := SetHead(r, head[d..]);
    HeadIsStream(r, stream, origin);
    StateAtPlus(stream, origin, Base(r), Base(r) + d);
    StateAtPlus(stream, origin, Base(r) + d, Base(r) + |head|);
    StateAtPlus(stream, origin, Base(r), Base(r) + |head|);
    assert head[d..] == stream[Base(r) + d..Base(r) + |head|];
    assert Flatten(r'.chunks) == Flatten(r.chunks)[d..];
  }

  lemma PushTracks(r: Ring, stream: bytes, origin: nat, data: bytes)
    requires Tracks(r, stream, origin) && data != []
    ensures Tracks(Push(r, data), stream + data, origin)
    ensures forall k :: origin <= k <= |stream| ==> StateAt(stream + data, origin, k) == StateAt(stream, origin, k)
  {
    hide Run;
    var all := stream + data;
    forall k | origin <= k <= |stream| ensures StateAt(all, origin, k) == StateAt(stream, origin, k) {
      assert all[origin..k] == stream[origin..k];
    }
    StateAtPlus(stream, origin, Base(r), |stream|);
    assert stream[Base(r)..|stream|] == stream[Base(r)..];
    ThreadedAppend(r.chunks, r.inside, StateAt(stream, origin, Base(r)), data);
    StateAtPlus(all, origin, |stream|, |all|);
    assert all[|stream|..|all|] == data;
    FlattenAppend(r.chunks, [data]);
    assert Flatten([data]) == data;
    assert all[Base(r)..] == stream[Base(r)..] + data;
  }

  // ---------------------------------------------------------------------
  // What every append keeps
  // ---------------------------------------------------------------------

  /**
    A replay may start here: the parser is between sequences at the base, or
    the whole head chunk lies in one sequence that has not closed by its end.
  */
  ghost predicate SafeHead(r: Ring, stream: bytes, origin: nat)
    requires Tracks(r, stream, origin)
  {
    || StateAt(stream, origin, Base(r)) == Outside
    || (r.chunks != [] && OpenThrough(r, stream, origin))
  }

  ghost predicate OpenThrough(r: Ring, stream: bytes, origin: nat)
    requires Tracks(r, stream, origin) && r.chunks != []
  {
    forall k :: Base(r) <= k <= Base(r) + |r.chunks[0]| && k <= |stream| ==> StateAt(stream, origin, k) != Outside
  }

  /**
    The buffer exceeds its budget by less than its head chunk, and only when the
    head offers no cut within the budget: at every position either a parser
    started at the head is inside a sequence or a character is in progress.
  */
  ghost predicate WithinBudget(r: Ring)
  {
    && (r.chunks != [] ==> r.size - |r.chunks[0]| < r.maxBytes)
    && (r.size > r.maxBytes ==> r.chunks != [] && NoCleanCut(r.chunks[0], r.size - r.maxBytes))
  }

  ghost predicate NoCleanCut(chunk: bytes, drop: int) {
    NoCleanCutBefore(chunk, drop, |chunk|)
  }

  ghost predicate NoCleanCutBefore(chunk: bytes, drop: int, d: int) {
    forall k :: 0 <= drop <= k < d <= |chunk| ==> Run(Outside, chunk[..k]) != Outside || IsContinuation(chunk[k])
  }

  lemma {:induction false} PopInsideTracks(r: Ring, resume: State, stream: bytes, origin: nat)
    requires Tracks(r, stream, origin) && resume == StateAt(stream, origin, Base(r))
    ensures var (r', s') := PopInside(r, resume);
      Tracks(r', stream, origin) && s' == StateAt(stream, origin, Base(r')) && Base(r) <= Base(r')
    ensures r.chunks != [] ==> PopInside(r, resume).0.chunks != []
    decreases |r.chunks|
  {
    if resume != Outside && |r.chunks| > 1 {
      PopTracks(r, stream, origin);
      PopInsideTracks(Pop(r), r.inside[0], stream, origin);
    }
  }

  /** Eviction moves along the stream, and reports the state it stopped in. */
  lemma {:induction false} EvictTracks(r: Ring, resume: State, stream: bytes, origin: nat)
    requires Tracks(r, stream, origin)
    ensures var (r', s') := Evict(r, resume);
      && Tracks(r', stream, origin)
      && (if r' == r then s' == resume else Base(r) < Base(r') && s' == StateAt(stream, origin, Base(r')))
      && (r.chunks != [] ==> r'.chunks != [])
    decreases |r.chunks|
  {
    if r.chunks != [] && r.size - |r.chunks[0]| >= r.maxBytes {
      PopTracks(r, stream, origin);
      var r0 := Pop(r);
      assert r0.size > 0;
      assert r0.chunks != [];
      PopInsideTracks(r0, r.inside[0], stream, origin);
      var (r1, s1) := PopInside(r0, r.inside[0]);
      EvictTracks(r1, s1, stream, origin);
    }
  }

  lemma ReanchorTracks(r: Ring, resume: State, stream: bytes, origin: nat)
    requires Tracks(r, stream, origin) && resume == StateAt(stream, origin, Base(r)) && r.chunks != []
    ensures var r' := Reanchor(r, resume);
      Tracks(r', stream, origin) && Base(r) <= Base(r') && SafeHead(r', stream, origin)
    ensures forall k :: Base(r) <= k < Base(Reanchor(r, resume)) ==> StateAt(stream, origin, k) != Outside
  {
    hide Run;
    if resume != Outside {
      var chunk := r.chunks[0];
      var j := Boundary(resume, chunk, 0);
      BoundaryIsFirst(resume, chunk, 0);
      HeadIsStream(r, stream, origin);
      forall k | 0 <= k <= |chunk|
        ensures StateAt(stream, origin, Base(r) + k) == Run(resume, chunk[..k])
      {
        StateAtPlus(stream, origin, Base(r), Base(r) + k);
        assert stream[Base(r)..Base(r) + k] == chunk[..k];
      }
      assert chunk[..|chunk|] == chunk;
      forall k | Base(r) <= k < Base(r) + j ensures StateAt(stream, origin, k) != Outside {
        assert StateAt(stream, origin, Base(r) + (k - Base(r))) == Run(resume, chunk[..k - Base(r)]);
      }
      if j < |chunk| {
        SetHeadTracks(r, stream, origin, j);
        assert StateAt(stream, origin, Base(r) + j) == Outside;
      } else if Run(resume, chunk) == Outside {
        PopTracks(r, stream, origin);
      } else {
        forall k | Base(r) <= k <= Base(r) + |chunk| ensures StateAt(stream, origin, k) != Outside {
          assert StateAt(stream, origin, Base(r) + (k - Base(r))) == Run(resume, chunk[..k - Base(r)]);
        }
        assert OpenThrough(r, stream, origin);
      }
    }
  }

  /** Skipping orphans does not leave the outside state. */
  lemma AlignStaysOutside(chunk: bytes, d: nat)
    requires d <= |chunk| && Run(Outside, chunk[..d]) == Outside
    ensures Run(Outside, chunk[..d + Orphans(chunk[d..], 0)]) == Outside
  {
    var n := Orphans(chunk[d..], 0);
    forall k | d <= k < d + n ensures chunk[k] != ESC {
      assert chunk[k] == chunk[d..][k - d];
    }
    RunPlain(Outside, chunk, d, d + n);
  }

  lemma AlignIsSuffix(buf: bytes)
    ensures AlignUtf8(buf) == buf[Orphans(buf, 0)..]
  {
  }

  lemma RunShift(chunk: bytes, drop: nat, k: nat)
    requires drop + k <= |chunk|
    ensures Run(Outside, chunk[..drop + k]) == Run(Run(Outside, chunk[..drop]), chunk[drop..][..k])
  {
    assert chunk[..drop + k] == chunk[..drop] + chunk[drop..][..k];
    RunAppend(Outside, chunk[..drop], chunk[drop..][..k]);
  }

  /** The first boundary at or after the cut, before characters are looked at. */
  lemma CutBoundary(chunk: bytes, drop: nat) returns (j: nat)
    requires drop <= |chunk|
    ensures drop <= j <= |chunk| && CutTail(chunk, drop) == AlignUtf8(chunk[j..])
    ensures j < |chunk| ==> Run(Outside, chunk[..j]) == Outside
    ensures forall k :: drop <= k < j ==> Run(Outside, chunk[..k]) != Outside
  {
    hide Run, AlignUtf8;
    var s := Run(Outside, chunk[..drop]);
    j := drop + if s != Outside then Boundary(s, chunk[drop..], 0) else 0;
    BoundaryIsFirst(s, chunk[drop..], 0);
    assert chunk[drop..][j - drop..] == chunk[j..];
    if j < |chunk| { RunShift(chunk, drop, j - drop); }
    forall k | drop <= k < j ensures Run(Outside, chunk[..k]) != Outside {
      RunShift(chunk, drop, k - drop);
    }
  }

  /** The cut is the first clean one, up to three continuation bytes; when it leaves nothing there was none. */
  lemma CutTailIsClean(chunk: bytes, drop: nat) returns (d: nat)
    requires drop <= |chunk|
    ensures drop <= d <= |chunk| && CutTail(chunk, drop) == chunk[d..]
    ensures d < |chunk| ==> Run(Outside, chunk[..d]) == Outside
    ensures NoCleanCutBefore(chunk, drop, d)
  {
    hide Run, CutTail;
    var j := CutBoundary(chunk, drop);
    var n := Orphans(chunk[j..], 0);
    d := j + n;
    assert chunk[j..][n..] == chunk[d..];
    assert forall k :: j <= k < d ==> chunk[k] == chunk[j..][k - j];
    if j < |chunk| { AlignStaysOutside(chunk, j); }
  }

  /** Moving the base within a safe head keeps it safe, if the new base is outside when the old one was. */
  lemma AdvanceIsSafe(r: Ring, stream: bytes, origin: nat, d: nat)
    requires Tracks(r, stream, origin) && SafeHead(r, stream, origin)
    requires r.chunks != [] && d < |r.chunks[0]| && Run(Outside, r.chunks[0][..d]) == Outside
    ensures var r' := SetHead(r, r.chunks[0][d..]);
      Tracks(r', stream, origin) && Base(r') == Base(r) + d && SafeHead(r', stream, origin)
  {
    HeadIsStream(r, stream, origin);
    SetHeadTracks(r, stream, origin, d);
    StateAtPlus(stream, origin, Base(r), Base(r) + d);
    assert stream[Base(r)..Base(r) + d] == r.chunks[0][..d];
  }

  /** Cutting moves the base to a clean cut of the head, or leaves the buffer as it is. */
  lemma CutHeadShape(r: Ring, sizeBefore: int) returns (d: nat)
    requires Shaped(r) && Cuttable(r) && r.chunks != [] && r.chunks[0] != []
    ensures d < |r.chunks[0]| && Run(Outside, r.chunks[0][..d]) == Outside
    ensures CutHead(r, sizeBefore) == if d == 0 then r else SetHead(r, r.chunks[0][d..])
    ensures WithinBudget(CutHead(r, sizeBefore))
  {
    hide CutTail, AlignUtf8, NoCleanCutBefore, Orphans;
    var chunk := r.chunks[0];
    assert chunk[..0] == [] && chunk[0..] == chunk && Run(Outside, []) == Outside;
    d := 0;
    if r.size > r.maxBytes {
      var c := CutTailIsClean(chunk, r.size - r.maxBytes);
      if c < |chunk| { d := c; }
    } else if r.size < sizeBefore {
      AlignStaysOutside(chunk, 0);
      AlignIsSuffix(chunk);
      if Orphans(chunk, 0) < |chunk| { d := Orphans(chunk, 0); }
      assert SetHead(r, chunk) == r;
    }
  }

  lemma CutHeadKeeps(r: Ring, sizeBefore: int, stream: bytes, origin: nat)
    requires Tracks(r, stream, origin) && SafeHead(r, stream, origin) && Cuttable(r)
    ensures var r' := CutHead(r, sizeBefore);
      Tracks(r', stream, origin) && SafeHead(r', stream, origin) && WithinBudget(r') && Base(r) <= Base(r')
  {
    if r.chunks != [] {
      var d := CutHeadShape(r, sizeBefore);
      AdvanceIsSafe(r, stream, origin, d);
    } else {
      assert Flatten(r.chunks) == [];
    }
  }

  /** Trimming keeps the window, the safe head and the budget. */
  lemma TrimKeeps(r: Ring, stream: bytes, origin: nat)
    requires Tracks(r, stream, origin) && SafeHead(r, stream, origin)
    ensures var r' := Trim(r);
      Tracks(r', stream, origin) && SafeHead(r', stream, origin) && WithinBudget(r') && Base(r) <= Base(r')
  {
    EvictLeavesLittle(r, Outside);
    EvictTracks(r, Outside, stream, origin);
    var (r1, s1) := Evict(r, Outside);
    if r1 != r { ReanchorTracks(r1, s1, stream, origin); }
    CutHeadKeeps(Reanchor(r1, s1), r.size, stream, origin);
  }

  /** One append keeps the window equal to the stream's end, the head safe and the size in budget. */
  lemma AppendKeeps(r: Ring, stream: bytes, origin: nat, data: bytes)
    requires Tracks(r, stream, origin) && SafeHead(r, stream, origin) && WithinBudget(r)
    ensures var r' := Append(r, data);
      && Tracks(r', stream + data, origin)
      && SafeHead(r', stream + data, origin)
      && WithinBudget(r')
      && Base(r) <= Base(r')
  {
    if data == [] {
      assert stream + data == stream;
    } else {
      PushTracks(r, stream, origin, data);
      var p := Push(r, data);
      var all := stream + data;
      assert StateAt(all, origin, Base(r)) == StateAt(stream, origin, Base(r));
      if r.chunks != [] {
        HeadIsStream(r, stream, origin);
        if StateAt(stream, origin, Base(r)) != Outside {
          forall k | Base(p) <= k <= Base(p) + |p.chunks[0]| ensures StateAt(all, origin, k) != Outside {
            assert StateAt(all, origin, k) == StateAt(stream, origin, k);
          }
        }
      }
      TrimKeeps(p, all, origin);
    }
  }
}
