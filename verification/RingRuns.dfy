/** What every reachable scrollback buffer keeps, and what its head can look like. */
module RingRuns {
  import opened Bytes
  import opened Ansi
  import opened RingSpec

  // ---------------------------------------------------------------------
  // Every reachable buffer
  // ---------------------------------------------------------------------

  datatype Op = Feed(data: bytes) | Reset

  function After(maxBytes: int, ops: seq<Op>): (r: Ring)
    ensures Shaped(r) && r.maxBytes == maxBytes
  {
    if ops == [] then Empty(maxBytes)
    else
      var r := After(maxBytes, ops[..|ops| - 1]);
      match ops[|ops| - 1]
      case Feed(data) => Append(r, data)
      case Reset => Clear(r)
  }

  /** Everything fed, in order. */
  ghost function History(ops: seq<Op>): bytes {
    if ops == [] then []
    else
      var h := History(ops[..|ops| - 1]);
      match ops[|ops| - 1]
      case Feed(data) => h + data
      case Reset => h
  }

  /** The offset of the last reset, where the parser was started afresh. */
  ghost function Origin(ops: seq<Op>): (n: nat)
    ensures n <= |History(ops)|
  {
    if ops == [] then 0
    else
      match ops[|ops| - 1]
      case Feed(_) => Origin(ops[..|ops| - 1])
      case Reset => |History(ops[..|ops| - 1])|
  }

  /** The window, the safe head and the budget, over every run. */
  lemma {:induction false} EveryBuffer(maxBytes: int, ops: seq<Op>)
    requires maxBytes > 0
    ensures var r := After(maxBytes, ops);
      Tracks(r, History(ops), Origin(ops)) && SafeHead(r, History(ops), Origin(ops)) && WithinBudget(r)
    decreases |ops|
  {
    if ops != [] {
      var before := ops[..|ops| - 1];
      EveryBuffer(maxBytes, before);
      match ops[|ops| - 1] {
        case Feed(data) => AppendKeeps(After(maxBytes, before), History(before), Origin(before), data);
        case Reset => assert History(ops)[|History(ops)|..] == [];
      }
    }
  }

  // ---------------------------------------------------------------------
  // Plain text: the window does not depend on the read boundaries
  // ---------------------------------------------------------------------

  ghost predicate PlainAscii(buf: bytes) {
    forall k :: 0 <= k < |buf| ==> buf[k] < 0x80 && buf[k] != ESC
  }

  lemma {:induction false} EvictPlain(r: Ring, stream: bytes, origin: nat)
    requires Tracks(r, stream, origin) && PlainAscii(stream)
    ensures var (r', s') := Evict(r, Outside);
      s' == Outside && (r' != r ==> r'.size >= r.maxBytes)
    decreases |r.chunks|
  {
    if r.chunks != [] && r.size - |r.chunks[0]| >= r.maxBytes {
      PopTracks(r, stream, origin);
      PlainEndsOutside(stream[origin..Base(Pop(r))]);
      EvictPlain(Pop(r), stream, origin);
    }
  }

  lemma CutPlain(r: Ring, sizeBefore: int)
    requires Shaped(r) && Cuttable(r) && r.chunks != [] && r.chunks[0] != [] && PlainAscii(r.chunks[0])
    ensures CutHead(r, sizeBefore).size == Min(r.size, r.maxBytes)
  {
    var chunk := r.chunks[0];
    assert Orphans(chunk, 0) == 0;
    if r.size > r.maxBytes {
      var drop := r.size - r.maxBytes;
      PlainEndsOutside(chunk[..drop]);
      assert Orphans(chunk[drop..], 0) == 0;
      assert CutTail(chunk, drop) == chunk[drop..];
    }
  }

  lemma AppendPlain(r: Ring, stream: bytes, origin: nat, data: bytes)
    requires Tracks(r, stream, origin) && PlainAscii(stream + data)
    requires r.size == Min(|stream| - origin, r.maxBytes)
    ensures Append(r, data).size == Min(|stream + data| - origin, r.maxBytes)
  {
    hide Run, CutHead, PopInside;
    if data != [] {
      PushTracks(r, stream, origin, data);
      var p := Push(r, data);
      var all := stream + data;
      EvictPlain(p, all, origin);
      EvictTracks(p, Outside, all, origin);
      EvictLeavesLittle(p, Outside);
      var (r1, s1) := Evict(p, Outside);
      HeadIsStream(r1, all, origin);
      assert forall k :: 0 <= k < |r1.chunks[0]| ==> r1.chunks[0][k] == all[Base(r1) + k];
      CutPlain(r1, p.size);
    }
  }

  lemma PlainPrefix(a: bytes, b: bytes)
    requires PlainAscii(a + b)
    ensures PlainAscii(a)
  {
    assert forall k :: 0 <= k < |a| ==> a[k] == (a + b)[k];
  }

  lemma {:induction false} PlainSize(maxBytes: int, ops: seq<Op>)
    requires maxBytes > 0 && PlainAscii(History(ops))
    ensures After(maxBytes, ops).size == Min(|History(ops)| - Origin(ops), maxBytes)
    decreases |ops|
  {
    if ops != [] && ops[|ops| - 1].Feed? {
      var before := ops[..|ops| - 1];
      var r, h, o, data := After(maxBytes, before), History(before), Origin(before), ops[|ops| - 1].data;
      assert History(ops) == h + data;
      PlainPrefix(h, data);
      PlainSize(maxBytes, before);
      EveryBuffer(maxBytes, before);
      AppendPlain(r, h, o, data);
      assert After(maxBytes, ops) == Append(r, data);
      assert Origin(ops) == o;
    }
  }

  /**
    Without escapes and without multi-byte characters the buffer holds exactly
    the last `maxBytes` bytes since the last clear, however the reads were split.
  */
  lemma PlainWindow(maxBytes: int, ops: seq<Op>)
    requires maxBytes > 0 && PlainAscii(History(ops))
    ensures Flatten(After(maxBytes, ops).chunks)
         == History(ops)[|History(ops)| - Min(|History(ops)| - Origin(ops), maxBytes)..]
  {
    EveryBuffer(maxBytes, ops);
    PlainSize(maxBytes, ops);
  }

  // ---------------------------------------------------------------------
  // Characters: when a replay starts inside one
  // ---------------------------------------------------------------------

  predicate FourContinuations(buf: bytes, k: nat) {
    k + 3 < |buf| && IsContinuation(buf[k]) && IsContinuation(buf[k + 1])
    && IsContinuation(buf[k + 2]) && IsContinuation(buf[k + 3])
  }

  /** No four continuation bytes in a row, as in every UTF-8 stream (section 3 of RFC 3629). */
  ghost predicate ShortCharacters(buf: bytes) {
    forall k: nat :: !FourContinuations(buf, k)
  }

  lemma SuffixShort(chunk: bytes, d: nat)
    requires ShortCharacters(chunk) && d <= |chunk|
    ensures ShortCharacters(chunk[d..])
  {
    forall k: nat ensures !FourContinuations(chunk[d..], k) {
      assert !FourContinuations(chunk, d + k);
    }
  }

  predicate AllContinuation(buf: bytes) {
    forall k :: 0 <= k < |buf| ==> IsContinuation(buf[k])
  }

  lemma AlignedStartsClean(buf: bytes)
    requires ShortCharacters(buf)
    ensures if AlignUtf8(buf) == [] then AllContinuation(buf) else !IsContinuation(AlignUtf8(buf)[0])
  {
    assert !FourContinuations(buf, 0);
  }

  lemma CutTailAligned(chunk: bytes, drop: nat)
    requires ShortCharacters(chunk) && drop <= |chunk| && CutTail(chunk, drop) != []
    ensures !IsContinuation(CutTail(chunk, drop)[0])
  {
    hide Run;
    var j := CutBoundary(chunk, drop);
    SuffixShort(chunk, j);
    AlignedStartsClean(chunk[j..]);
  }

  /** The buffer after eviction and re-anchoring, before its head is cut. */
  function BeforeCut(r: Ring, data: bytes): (r': Ring)
    requires Shaped(r)
    ensures Shaped(r')
  {
    var (r1, s1) := Evict(Push(r, data), Outside);
    Reanchor(r1, s1)
  }

  /**
    The head begins inside a character and is left so: the cut would leave
    nothing of it, or the realignment would, or nothing has been evicted and it
    is not looked at.
  */
  predicate KeepsOrphans(r: Ring, sizeBefore: int)
    requires r.chunks != [] && r.size - r.maxBytes <= |r.chunks[0]|
  {
    && r.chunks[0] != [] && IsContinuation(r.chunks[0][0])
    && (if r.size > r.maxBytes then CutTail(r.chunks[0], r.size - r.maxBytes) == []
        else r.size < sizeBefore ==> AllContinuation(r.chunks[0]))
  }

  lemma CutHeadAligned(r: Ring, sizeBefore: int)
    requires Shaped(r) && Cuttable(r) && r.chunks != [] && r.chunks[0] != []
    requires ShortCharacters(r.chunks[0])
    ensures var r' := CutHead(r, sizeBefore);
      r'.chunks != [] && r'.chunks[0] != [] && (IsContinuation(r'.chunks[0][0]) <==> KeepsOrphans(r, sizeBefore))
  {
    hide CutTail, AlignUtf8;
    var chunk := r.chunks[0];
    if r.size > r.maxBytes {
      var tail := CutTail(chunk, r.size - r.maxBytes);
      if tail != [] { CutTailAligned(chunk, r.size - r.maxBytes); }
      assert CutHead(r, sizeBefore) == if tail != [] then SetHead(r, tail) else r;
    } else if r.size < sizeBefore {
      AlignedStartsClean(chunk);
      AlignIsSuffix(chunk);
      var aligned := AlignUtf8(chunk);
      assert CutHead(r, sizeBefore) == if aligned != [] then SetHead(r, aligned) else r;
    }
  }

  lemma BeforeCutTracks(r: Ring, stream: bytes, origin: nat, data: bytes)
    requires Tracks(r, stream, origin) && data != []
    ensures var r2 := BeforeCut(r, data);
      Tracks(r2, stream + data, origin) && Cuttable(r2) && Append(r, data) == CutHead(r2, r.size + |data|)
  {
    PushTracks(r, stream, origin, data);
    var p := Push(r, data);
    var all := stream + data;
    EvictLeavesLittle(p, Outside);
    EvictTracks(p, Outside, all, origin);
    var (r1, s1) := Evict(p, Outside);
    hide Evict, Reanchor, CutHead, Tracks;
    if r1 != p { ReanchorTracks(r1, s1, all, origin); } else { NotReanchored(p); }
    ReanchorCuttable(r1, s1);
  }

  lemma NotReanchored(r: Ring)
    requires Shaped(r)
    ensures Reanchor(r, Outside) == r
  {
  }

  lemma ReanchorCuttable(r: Ring, resume: State)
    requires Shaped(r) && Cuttable(r)
    ensures Cuttable(Reanchor(r, resume))
  {
  }

  /**
    After an append the replay starts inside a character exactly when it would
    have before the head was cut, and the head is then left as it is: a cut would
    leave nothing of it, a realignment would, or nothing has been evicted.
  */
  lemma OrphanHead(r: Ring, stream: bytes, origin: nat, data: bytes)
    requires Tracks(r, stream, origin) && ShortCharacters(stream + data) && data != []
    ensures var r2, d := BeforeCut(r, data), Append(r, data);
      && (d.chunks == [] <==> r2.chunks == [])
      && (d.chunks != [] ==>
            && d.chunks[0] != [] && r2.size - r2.maxBytes <= |r2.chunks[0]|
            && (IsContinuation(d.chunks[0][0]) <==> KeepsOrphans(r2, r.size + |data|)))
  {
    BeforeCutTracks(r, stream, origin, data);
    var r2, all := BeforeCut(r, data), stream + data;
    if r2.chunks != [] {
      HeadIsStream(r2, all, origin);
      SuffixShort(all, Base(r2));
      forall k: nat ensures !FourContinuations(r2.chunks[0], k) {
        assert !FourContinuations(all[Base(r2)..], k);
      }
      assert r2.chunks[0] != [];
      hide Tracks, BeforeCut;
      CutHeadAligned(r2, r.size + |data|);
    }
  }

  lemma TwoFeeds(maxBytes: int, a: bytes, b: bytes)
    ensures After(maxBytes, [Feed(a), Feed(b)]) == Append(Append(Empty(maxBytes), a), b)
  {
    var ops := [Feed(a), Feed(b)];
    assert ops[..1] == [Feed(a)] && [Feed(a)][..0] == [];
    hide Append;
    assert After(maxBytes, []) == Empty(maxBytes);
    assert After(maxBytes, [Feed(a)]) == Append(Empty(maxBytes), a);
  }

  /** Nothing is evicted: the stream itself began inside a character. */
  lemma OrphanFromStart()
    ensures After(10, [Feed([0x82, 0x41])]).chunks == [[0x82, 0x41]]
  {
    assert [Feed([0x82, 0x41])][..0] == [];
    hide Run;
    assert After(10, []) == Empty(10);
    assert After(10, [Feed([0x82, 0x41])]) == Append(Empty(10), [0x82, 0x41]);
  }

  /** The lead byte of a character, alone in the buffer. */
  lemma LeadByte(maxBytes: int)
    requires maxBytes >= 1
    ensures Append(Empty(maxBytes), [0xE2]) == Ring(maxBytes, [[0xE2]], [Outside], Outside, 1, 1)
  {
    OneByteRun(0xE2);
    hide Run;
  }

  lemma OneByteRun(b: byte)
    requires b != ESC
    ensures Run(Outside, [b]) == Outside
  {
    RunSnoc(Outside, [b], 0);
    assert [b][..1] == [b];
  }

  /** Of two chunks the first goes, and the second stays whatever it is. */
  lemma FirstGoes(r: Ring, first: bytes, second: bytes)
    requires Shaped(r) && r.chunks == [first, second] && r.inside[0] == Outside
    requires r.size == |first| + |second| && |second| >= r.maxBytes > 0
    ensures Evict(r, Outside) == (Pop(r), Outside) && Pop(r).chunks == [second] && Pop(r).size == |second|
  {
    hide Run;
    var q := Pop(r);
    assert q.chunks == [second];
    assert PopInside(q, Outside) == (q, Outside);
    assert Evict(q, Outside) == (q, Outside);
  }

  /** The realignment would leave nothing: the buffer holds the second byte of a character and no more. */
  lemma OrphanAlone()
    ensures After(1, [Feed([0xE2]), Feed([0x82])]).chunks == [[0x82]]
  {
    TwoFeeds(1, [0xE2], [0x82]);
    LeadByte(1);
    OneByteRun(0x82);
    hide Run, After;
    var p := Push(Append(Empty(1), [0xE2]), [0x82]);
    assert p.chunks == [[0xE2], [0x82]] && p.inside[0] == Outside;
    hide Evict;
    FirstGoes(p, [0xE2], [0x82]);
  }

  /** The second byte of a character, and an OSC string that does not end. */
  const UNFINISHED: bytes := [0x82, ESC, RBRACKET, 120, 120, 120]

  lemma UnfinishedRuns()
    ensures Run(Outside, UNFINISHED[..2]) == Esc
    ensures forall k :: 0 <= k <= 4 ==> Run(Esc, UNFINISHED[2..][..k]) != Outside
  {
    RunSnoc(Outside, UNFINISHED, 0);
    RunSnoc(Outside, UNFINISHED, 1);
    var t := UNFINISHED[2..];
    RunSnoc(Esc, t, 0);
    RunSnoc(Esc, t, 1);
    RunSnoc(Esc, t, 2);
    RunSnoc(Esc, t, 3);
    assert t == [RBRACKET, 120, 120, 120];
  }

  lemma UnfinishedHasNoCut()
    ensures CutTail(UNFINISHED, 2) == []
  {
    UnfinishedRuns();
    hide Run;
    BoundaryIsFirst(Esc, UNFINISHED[2..], 0);
    assert Boundary(Esc, UNFINISHED[2..], 0) == 4;
    hide Boundary;
  }

  /** The cut would leave nothing: the buffer stays over its budget, with an orphan at its head. */
  lemma OrphanOverBudget()
    ensures var r := After(4, [Feed([0xE2]), Feed(UNFINISHED)]);
      r.chunks == [UNFINISHED] && r.size == 6
  {
    TwoFeeds(4, [0xE2], UNFINISHED);
    LeadByte(4);
    hide Run, After;
    var p := Push(Append(Empty(4), [0xE2]), UNFINISHED);
    assert p.chunks == [[0xE2], UNFINISHED] && p.inside[0] == Outside;
    hide Evict, CutTail;
    FirstGoes(p, [0xE2], UNFINISHED);
    UnfinishedHasNoCut();
    assert CutHead(Pop(p), 7) == Pop(p);
  }
}
