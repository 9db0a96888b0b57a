/**
  Where ANSI escape sequences begin and end.

  `Step` and `Run` are the reference: one transition per byte.  The streaming
  tracker (which jumps over plain text and is fed in arbitrary chunks) and the
  stateless index scanners are both compared with it.
*/
module Ansi {
  import opened Bytes

  /** `Outside` is the source's `None`; the others are the kind being read. */
  datatype State = Outside | Esc | Csi | Osc | OscSt | Short

  predicate IsFinal(b: byte) {
    0x40 <= b <= 0x7E
  }

  predicate IsShortIntermediate(b: byte) {
    b == 0x28 || b == 0x29 || b == 0x2A || b == 0x2B || b == 0x23 || b == 0x25
  }

  /** The state after the byte that follows a lone ESC. */
  function Dispatch(kind: byte): State {
    if kind == LBRACKET then Csi
    else if kind == RBRACKET then Osc
    else if IsShortIntermediate(kind) then Short
    else Outside
  }

  /** One byte of the reference automaton. */
  function Step(s: State, b: byte): State {
    match s
    case Outside => if b == ESC then Esc else Outside
    case Esc => Dispatch(b)
    case Csi => if IsFinal(b) then Outside else Csi
    case Osc => if b == BEL then Outside else if b == ESC then OscSt else Osc
    case OscSt => if b == BACKSLASH then Outside else Osc
    case Short => Outside
  }

  /** The state after a whole byte string, read byte by byte. */
  function Run(s: State, buf: bytes): State {
    if buf == [] then s else Step(Run(s, buf[..|buf| - 1]), buf[|buf| - 1])
  }

  lemma RunSnoc(s: State, buf: bytes, i: nat)
    requires i < |buf|
    ensures Run(s, buf[..i + 1]) == Step(Run(s, buf[..i]), buf[i])
  {
    assert buf[..i + 1][..i] == buf[..i];
  }

  /** Chunking invariance: reading in two pieces is reading once. */
  lemma {:induction false} RunAppend(s: State, a: bytes, b: bytes)
    ensures Run(s, a + b) == Run(Run(s, a), b)
    decreases |b|
  {
    if b == [] {
      assert a + b == a;
    } else {
      var b' := b[..|b| - 1];
      assert (a + b)[..|a + b| - 1] == a + b';
      RunAppend(s, a, b');
    }
  }

  /** The state after reading the pieces one by one. */
  function RunAll(s: State, chunks: seq<bytes>): State
    decreases |chunks|
  {
    if chunks == [] then s else RunAll(Run(s, chunks[0]), chunks[1..])
  }

  /** Chunking invariance: however a stream is cut into pieces, it is read as a whole. */
  lemma {:induction false} RunFlatten(s: State, chunks: seq<bytes>)
    ensures RunAll(s, chunks) == Run(s, Flatten(chunks))
    decreases |chunks|
  {
    if chunks != [] {
      RunAppend(s, chunks[0], Flatten(chunks[1..]));
      RunFlatten(Run(s, chunks[0]), chunks[1..]);
    }
  }

  /** Plain text leaves the automaton outside: the licence for `bytes.find`. */
  lemma {:induction false} RunPlain(s: State, buf: bytes, i: nat, j: nat)
    requires i <= j <= |buf| && Run(s, buf[..i]) == Outside
    requires forall k :: i <= k < j ==> buf[k] != ESC
    ensures Run(s, buf[..j]) == Outside
    decreases j
  {
    if i < j {
      RunPlain(s, buf, i, j - 1);
      RunSnoc(s, buf, j - 1);
    }
  }

  lemma PlainEndsOutside(buf: bytes)
    requires ESC !in buf
    ensures Run(Outside, buf) == Outside
  {
    RunPlain(Outside, buf, 0, |buf|);
    assert buf[..|buf|] == buf && buf[..0] == [];
  }

  // ---------------------------------------------------------------------
  // The sequences themselves
  // ---------------------------------------------------------------------

  /** ESC [, any bytes that are not final, and a final byte from `@` to `~`. */
  predicate IsControlSequence(q: bytes) {
    && |q| >= 3 && q[0] == 0x1B && q[1] == 0x5B && 0x40 <= q[|q| - 1] <= 0x7E
    && forall k :: 2 <= k < |q| - 1 ==> q[k] < 0x40 || q[k] > 0x7E
  }

  /** ESC ], a text without ESC and BEL, and BEL or ESC backslash. */
  predicate IsString(q: bytes, end: nat) {
    && 2 <= end < |q| && q[0] == 0x1B && q[1] == 0x5D
    && (forall k :: 2 <= k < end ==> q[k] != 0x1B && q[k] != 0x07)
    && (q[end..] == [0x07] || q[end..] == [0x1B, 0x5C])
  }

  /** ESC, one of `( ) * + # %`, and any byte; or ESC and any other byte that opens nothing longer. */
  predicate IsShortSequence(q: bytes) {
    && |q| >= 2 && q[0] == 0x1B && q[1] != 0x5B && q[1] != 0x5D
    && |q| == if q[1] in [0x28, 0x29, 0x2A, 0x2B, 0x23, 0x25] then 3 else 2
  }

  /** `q` is one sequence: inside at every byte but the last. */
  ghost predicate OneSequence(q: bytes) {
    Run(Outside, q) == Outside && forall k :: 0 < k < |q| ==> Run(Outside, q[..k]) != Outside
  }

  lemma {:induction false} StaysIn(q: bytes, s: State, i: nat, j: nat)
    requires i <= j <= |q| && Run(Outside, q[..i]) == s
    requires forall k :: i <= k < j ==> Step(s, q[k]) == s
    ensures forall k :: i <= k <= j ==> Run(Outside, q[..k]) == s
    decreases j
  {
    if i < j {
      StaysIn(q, s, i, j - 1);
      RunSnoc(Outside, q, j - 1);
    }
  }

  lemma SequenceBegins(q: bytes)
    requires |q| >= 2 && q[0] == ESC
    ensures Run(Outside, q[..1]) == Esc && Run(Outside, q[..2]) == Dispatch(q[1])
  {
    RunSnoc(Outside, q, 0);
    RunSnoc(Outside, q, 1);
    assert q[..0] == [];
  }

  /** The automaton reads each of the sequences from its first byte to its last. */
  lemma SequencesAreRead(q: bytes)
    requires IsControlSequence(q) || IsShortSequence(q) || exists end: nat :: IsString(q, end)
    ensures OneSequence(q)
  {
    assert q[..|q|] == q;
    SequenceBegins(q);
    if IsControlSequence(q) {
      StaysIn(q, Csi, 2, |q| - 1);
      RunSnoc(Outside, q, |q| - 1);
    } else if IsShortSequence(q) {
      if |q| == 3 { RunSnoc(Outside, q, 2); }
    } else {
      var end: nat :| IsString(q, end);
      StaysIn(q, Osc, 2, end);
      RunSnoc(Outside, q, end);
      assert q[end..][0] == q[end];
      if |q| > end + 1 {
        assert q[end..][1] == q[end + 1];
        RunSnoc(Outside, q, end + 1);
      }
    }
    hide Run;
  }

  /** The first index at or after `i` where the automaton is outside, or the length. */
  function Boundary(s: State, buf: bytes, i: nat): (j: nat)
    requires i <= |buf|
    ensures i <= j <= |buf|
    decreases |buf| - i
  {
    if i == |buf| || Run(s, buf[..i]) == Outside then i else Boundary(s, buf, i + 1)
  }

  lemma {:induction false} BoundaryIsFirst(s: State, buf: bytes, i: nat)
    requires i <= |buf|
    ensures Boundary(s, buf, i) < |buf| ==> Run(s, buf[..Boundary(s, buf, i)]) == Outside
    ensures forall k :: i <= k < Boundary(s, buf, i) ==> Run(s, buf[..k]) != Outside
    decreases |buf| - i
  {
    hide Run;
    if i < |buf| && Run(s, buf[..i]) != Outside { BoundaryIsFirst(s, buf, i + 1); }
  }

  /** What is left of `buf` once the sequence in progress has been skipped. */
  function SkipToBoundary(s: State, buf: bytes): bytes {
    buf[Boundary(s, buf, 0)..]
  }

  /** No longer suffix of `buf` starts outside a sequence. */
  lemma SkipIsLongest(s: State, buf: bytes, k: nat)
    requires k <= |buf| && Run(s, buf[..k]) == Outside
    ensures |buf[k..]| <= |SkipToBoundary(s, buf)|
    ensures SkipToBoundary(s, buf) == [] || Run(s, buf[..|buf| - |SkipToBoundary(s, buf)|]) == Outside
  {
    BoundaryIsFirst(s, buf, 0);
  }

  /** The streaming tracker. */
  class AnsiTracker {
    var state: State

    constructor ()
      ensures state == Outside
    {
      state := Outside;
    }

    method Resume(s: State)
      modifies this
      ensures state == s
    {
      state := s;
    }

    /** Consumes `buf`; says whether the stream now ends inside a sequence. */
    method Feed(buf: bytes) returns (inside: bool)
      modifies this
      ensures state == Run(old(state), buf)
      ensures inside == (state != Outside)
    {
      var n := |buf|;
      var i := 0;
      while i < n
        invariant 0 <= i <= n
        invariant state == Run(old(state), buf[..i])
      {
        if state == Outside {
          var j := FindByte(buf, ESC, i);
          if j < 0 {
            RunPlain(old(state), buf, i, n);
            assert buf[..n] == buf;
            return false;
          }
          RunPlain(old(state), buf, i, j);
          RunSnoc(old(state), buf, j);
          i := j;
          if i + 1 >= n {
            state := Esc;
            assert buf[..n] == buf;
            return true;
          }
          RunSnoc(old(state), buf, i + 1);
          state := Dispatch(buf[i + 1]);
          i := i + 2;
        } else {
          RunSnoc(old(state), buf, i);
          if state == Esc {
            state := Dispatch(buf[i]);
          } else if state == Csi {
            if IsFinal(buf[i]) { state := Outside; }
          } else if state == Osc {
            if buf[i] == BEL {
              state := Outside;
            } else if buf[i] == ESC {
              state := OscSt;
            }
          } else if state == OscSt {
            state := if buf[i] == BACKSLASH then Outside else Osc;
          } else {
            state := Outside;
          }
          i := i + 1;
        }
      }
      assert buf[..n] == buf;
      inside := state != Outside;
    }

    /** Drops the leading bytes that complete the sequence in progress. */
    method Skip(buf: bytes) returns (rest: bytes)
      modifies this
      ensures rest == SkipToBoundary(old(state), buf)
      ensures state == Run(old(state), buf[..|buf| - |rest|])
    {
      var i := 0;
      while i < |buf| && state != Outside
        invariant 0 <= i <= |buf|
        invariant state == Run(old(state), buf[..i])
        invariant Boundary(old(state), buf, 0) == Boundary(old(state), buf, i)
      {
        RunAppend(old(state), buf[..i], buf[i..i + 1]);
        assert buf[..i] + buf[i..i + 1] == buf[..i + 1];
        var _ := Feed(buf[i..i + 1]);
        i := i + 1;
      }
      rest := buf[i..];
    }
  }

  // ---------------------------------------------------------------------
  // The stateless scanners
  // ---------------------------------------------------------------------

  /** Just past the final byte of a CSI sequence whose parameters start at `i`. */
  function CsiEnd(buf: bytes, i: nat): Option<nat>
    decreases |buf| - i
  {
    if i >= |buf| then None
    else if IsFinal(buf[i]) then Some(i + 1)
    else CsiEnd(buf, i + 1)
  }

  /** Just past the terminator (BEL or ST) of an OSC string whose body starts at `i`. */
  function OscEnd(buf: bytes, i: nat): Option<nat>
    decreases |buf| - i
  {
    if i >= |buf| then None
    else if buf[i] == BEL then Some(i + 1)
    else if buf[i] == ESC && i + 1 < |buf| && buf[i + 1] == BACKSLASH then Some(i + 2)
    else OscEnd(buf, i + 1)
  }

  function ShortEnd(buf: bytes, start: nat): Option<nat> {
    var i := start + 1;
    if i >= |buf| then None
    else if IsShortIntermediate(buf[i]) then (if i + 1 >= |buf| then None else Some(i + 2))
    else Some(i + 1)
  }

  /** Just past the escape sequence that begins at `start`; `None` if it is cut short. */
  function SequenceEnd(buf: bytes, start: nat): Option<nat> {
    if start >= |buf| || buf[start] != ESC then Some(start + 1)
    else if start + 1 >= |buf| then None
    else if buf[start + 1] == LBRACKET then CsiEnd(buf, start + 2)
    else if buf[start + 1] == RBRACKET then OscEnd(buf, start + 2)
    else ShortEnd(buf, start)
  }

  method ScanCsi(buf: bytes, start: nat) returns (end: Option<nat>)
    ensures end == CsiEnd(buf, start + 2)
  {
    var i := start + 2;
    while i < |buf| && !IsFinal(buf[i])
      invariant start + 2 <= i
      invariant CsiEnd(buf, i) == CsiEnd(buf, start + 2)
    {
      i := i + 1;
    }
    end := if i >= |buf| then None else Some(i + 1);
  }

  method ScanOsc(buf: bytes, start: nat) returns (end: Option<nat>)
    ensures end == OscEnd(buf, start + 2)
  {
    var i := start + 2;
    while i < |buf|
      invariant start + 2 <= i
      invariant OscEnd(buf, i) == OscEnd(buf, start + 2)
    {
      if buf[i] == BEL { return Some(i + 1); }
      if buf[i] == ESC && i + 1 < |buf| && buf[i + 1] == BACKSLASH { return Some(i + 2); }
      i := i + 1;
    }
    end := None;
  }

  method ScanSequence(buf: bytes, start: nat) returns (end: Option<nat>)
    ensures end == SequenceEnd(buf, start)
  {
    if start >= |buf| || buf[start] != ESC {
      return Some(start + 1);
    }
    if start + 1 >= |buf| {
      return None;
    }
    if buf[start + 1] == LBRACKET {
      end := ScanCsi(buf, start);
    } else if buf[start + 1] == RBRACKET {
      end := ScanOsc(buf, start);
    } else {
      end := ShortEnd(buf, start);
    }
  }

  /** The automaton the scanners implement: it differs from `Step` only after ESC in an OSC body. */
  function ScanStep(s: State, b: byte): State {
    if s == OscSt then
      if b == BACKSLASH || b == BEL then Outside else if b == ESC then OscSt else Osc
    else
      Step(s, b)
  }

  function ScanRun(s: State, buf: bytes): State {
    if buf == [] then s else ScanStep(ScanRun(s, buf[..|buf| - 1]), buf[|buf| - 1])
  }

  lemma ScanSnoc(s: State, buf: bytes, i: nat)
    requires i < |buf|
    ensures ScanRun(s, buf[..i + 1]) == ScanStep(ScanRun(s, buf[..i]), buf[i])
  {
    assert buf[..i + 1][..i] == buf[..i];
  }

  /** `end` is the first prefix length beyond `i` at which the scanners' automaton is outside. */
  ghost predicate FirstOutside(buf: bytes, i: nat, end: Option<nat>) {
    match end
    case None => forall k :: i < k <= |buf| ==> ScanRun(Outside, buf[..k]) != Outside
    case Some(e) =>
      i < e <= |buf| && ScanRun(Outside, buf[..e]) == Outside
      && forall k :: i < k < e ==> ScanRun(Outside, buf[..k]) != Outside
  }

  lemma {:induction false} CsiEndIsFirst(buf: bytes, i: nat)
    requires i <= |buf| && ScanRun(Outside, buf[..i]) == Csi
    ensures FirstOutside(buf, i, CsiEnd(buf, i))
    decreases |buf| - i
  {
    if i < |buf| {
      ScanSnoc(Outside, buf, i);
      if !IsFinal(buf[i]) { CsiEndIsFirst(buf, i + 1); }
    }
  }

  lemma {:induction false} OscEndIsFirst(buf: bytes, i: nat)
    requires 0 < i <= |buf| && ScanRun(Outside, buf[..i]) in {Osc, OscSt}
    requires ScanRun(Outside, buf[..i]) == OscSt && i < |buf| ==> buf[i] != BACKSLASH
    ensures FirstOutside(buf, i, OscEnd(buf, i))
    decreases |buf| - i
  {
    if i < |buf| {
      ScanSnoc(Outside, buf, i);
      if buf[i] != BEL {
        if buf[i] == ESC && i + 1 < |buf| && buf[i + 1] == BACKSLASH {
          ScanSnoc(Outside, buf, i + 1);
        } else {
          OscEndIsFirst(buf, i + 1);
        }
      }
    }
  }

  /** From a boundary, `sequence_end` is the first place the scanners' automaton is outside again. */
  lemma SequenceEndIsFirst(buf: bytes, i: nat)
    requires i < |buf| && buf[i] == ESC && ScanRun(Outside, buf[..i]) == Outside
    ensures FirstOutside(buf, i, SequenceEnd(buf, i))
  {
    hide ScanRun;
    ScanSnoc(Outside, buf, i);
    if i + 1 < |buf| {
      ScanSnoc(Outside, buf, i + 1);
      if buf[i + 1] == LBRACKET {
        CsiEndIsFirst(buf, i + 2);
      } else if buf[i + 1] == RBRACKET {
        OscEndIsFirst(buf, i + 2);
      } else if i + 2 < |buf| {
        ScanSnoc(Outside, buf, i + 2);
      }
    }
  }

  /** Whether `buf`, read from a boundary, stops in the middle of a sequence. */
  method EndsInsideEscape(buf: bytes) returns (inside: bool)
    ensures inside <==> ScanRun(Outside, buf) != Outside
  {
    var i := 0;
    while i < |buf|
      invariant 0 <= i <= |buf|
      invariant ScanRun(Outside, buf[..i]) == Outside
    {
      if buf[i] != ESC {
        ScanSnoc(Outside, buf, i);
        i := i + 1;
      } else {
        SequenceEndIsFirst(buf, i);
        var end := ScanSequence(buf, i);
        if end == None {
          assert buf[..|buf|] == buf;
          return true;
        }
        i := end.value;
      }
    }
    assert buf[..i] == buf;
    inside := false;
  }

  // ---------------------------------------------------------------------
  // When the tracker and the scanners agree
  // ---------------------------------------------------------------------

  /**
    The two places where they part: an OSC body in which the tracker waits for
    the second byte of ST and reads BEL, or reads a backslash after an ESC it
    has already given up on (an even run of ESCs).
  */
  predicate PartsAt(buf: bytes, i: nat)
    requires i < |buf|
  {
    var s := Run(Outside, buf[..i]);
    || (s == OscSt && buf[i] == BEL)
    || (s == Osc && buf[i] == BACKSLASH && i > 0 && buf[i - 1] == ESC)
  }

  /** As long as no such place has been read, the states are equal up to one pending ESC. */
  ghost predicate InStep(buf: bytes, n: nat)
    requires n <= |buf|
  {
    var s := Run(Outside, buf[..n]);
    var t := ScanRun(Outside, buf[..n]);
    && (s == t || (s == Osc && t == OscSt))
    && (t == OscSt ==> n > 0 && buf[n - 1] == ESC)
    && (t == Osc && n > 0 ==> buf[n - 1] != ESC)
  }

  lemma {:induction false} StaysInStep(buf: bytes, n: nat)
    requires n <= |buf| && forall i :: 0 <= i < n ==> !PartsAt(buf, i)
    ensures InStep(buf, n)
    decreases n
  {
    if n > 0 {
      StaysInStep(buf, n - 1);
      RunSnoc(Outside, buf, n - 1);
      ScanSnoc(Outside, buf, n - 1);
      assert !PartsAt(buf, n - 1);
    }
  }

  /** The tracker's answer on a prefix is the scanners' answer on it. */
  ghost predicate AgreeAt(buf: bytes, n: nat)
    requires n <= |buf|
  {
    (Run(Outside, buf[..n]) == Outside) == (ScanRun(Outside, buf[..n]) == Outside)
  }

  lemma {:induction false} FirstParting(buf: bytes, i: nat) returns (first: nat)
    requires i < |buf| && PartsAt(buf, i)
    ensures first <= i && PartsAt(buf, first)
    ensures forall k :: 0 <= k < first ==> !PartsAt(buf, k)
    decreases i
  {
    if k :| 0 <= k < i && PartsAt(buf, k) {
      first := FirstParting(buf, k);
    } else {
      first := i;
    }
  }

  /**
    Exactly when a fresh tracker and `ends_inside_escape` give the same answer
    on every prefix of a buffer.
  */
  lemma TrackerAgreesWithScanner(buf: bytes)
    ensures (forall n :: 0 <= n <= |buf| ==> AgreeAt(buf, n))
       <==> (forall i :: 0 <= i < |buf| ==> !PartsAt(buf, i))
  {
    if forall i :: 0 <= i < |buf| ==> !PartsAt(buf, i) {
      forall n | 0 <= n <= |buf| ensures AgreeAt(buf, n) {
        StaysInStep(buf, n);
      }
    } else {
      var i :| 0 <= i < |buf| && PartsAt(buf, i);
      var k := FirstParting(buf, i);
      StaysInStep(buf, k);
      RunSnoc(Outside, buf, k);
      ScanSnoc(Outside, buf, k);
      assert !AgreeAt(buf, k + 1);
    }
  }

  /** Where they agree, `sequence_end` is the first index at which the tracker is outside again. */
  lemma SequenceEndIsTrackerBoundary(buf: bytes, i: nat)
    requires i < |buf| && buf[i] == ESC && Run(Outside, buf[..i]) == Outside
    requires forall k :: 0 <= k < |buf| ==> !PartsAt(buf, k)
    ensures match SequenceEnd(buf, i)
      case None => forall k :: i < k <= |buf| ==> Run(Outside, buf[..k]) != Outside
      case Some(e) =>
        i < e <= |buf| && Run(Outside, buf[..e]) == Outside
        && forall k :: i < k < e ==> Run(Outside, buf[..k]) != Outside
  {
    TrackerAgreesWithScanner(buf);
    forall k | 0 <= k <= |buf|
      ensures Run(Outside, buf[..k]) == Outside <==> ScanRun(Outside, buf[..k]) == Outside
    {
      assert AgreeAt(buf, k);
    }
    SequenceEndIsFirst(buf, i);
  }

  /** `ESC ] ESC BEL`: the scanner sees the string end, the tracker does not. */
  lemma OscEscBelSplitsThem()
    ensures var buf: bytes := [ESC, RBRACKET, ESC, BEL];
      Run(Outside, buf) == Osc && ScanRun(Outside, buf) == Outside
  {
    var buf: bytes := [ESC, RBRACKET, ESC, BEL];
    RunSnoc(Outside, buf, 0);
    RunSnoc(Outside, buf, 1);
    RunSnoc(Outside, buf, 2);
    RunSnoc(Outside, buf, 3);
    ScanSnoc(Outside, buf, 0);
    ScanSnoc(Outside, buf, 1);
    ScanSnoc(Outside, buf, 2);
    ScanSnoc(Outside, buf, 3);
    assert buf[..4] == buf;
  }
}
