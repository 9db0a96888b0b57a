/** What a read that overflows the buffer of the OSC parser loses, and what it makes up. */
module OscCuts {
  import opened Bytes
  import opened OscParser

  // ---------------------------------------------------------------------
  // Reads beyond the bound
  // ---------------------------------------------------------------------

  function Weight(payloads: seq<bytes>): nat {
    if payloads == [] then 0 else |payloads[0]| + 1 + Weight(payloads[1..])
  }

  /** Cutting the first `k` bytes meets a complete sequence. */
  predicate CutsSequence(buf: bytes, k: nat) {
    var s := Introducer(buf, 0);
    s != -1 && s < k && Terminator(buf, s + 2) != -1
  }

  lemma ShiftIntroducer(buf: bytes)
    requires buf != []
    ensures var i := Introducer(buf, 1);
      Introducer(buf[1..], 0) == (if i == -1 then -1 else i - 1)
    ensures Introducer(buf, 0) != 0 ==> Introducer(buf, 0) == Introducer(buf, 1)
  {
    var b := buf[1..];
    var i, j := Introducer(buf, 1), Introducer(b, 0);
    assert forall k :: 0 <= k < |b| ==> IntroducerAt(b, k) == IntroducerAt(buf, k + 1);
    assert i != -1 ==> IntroducerAt(b, i - 1);
    assert j != -1 ==> IntroducerAt(buf, j + 1);
  }

  lemma {:induction false} TerminatorLater(buf: bytes, i: nat, j: nat)
    requires i <= j && (Terminator(buf, i) == -1 || j <= Terminator(buf, i))
    ensures Terminator(buf, j) == Terminator(buf, i)
    decreases j - i
  {
    if i < j { TerminatorLater(buf, i + 1, j); }
  }

  /** Where an introducer stands in a buffer, the scan from there on is the scan of the buffer after a byte. */
  lemma DropOneScan(buf: bytes)
    requires buf != []
    ensures var i := Introducer(buf, 1);
      Scan(buf[1..]).0 == if i == -1 then [] else Scan(buf[i..]).0
  {
    var i := Introducer(buf, 1);
    ShiftIntroducer(buf);
    if i != -1 {
      DropText(buf[1..], i - 1);
      assert buf[1..][i - 1..] == buf[i..];
    }
  }

  lemma ScanFrom(buf: bytes, i: nat)
    requires IntroducerAt(buf, i)
    ensures var e := Terminator(buf, i + 2);
      Scan(buf[i..]).0 == if e == -1 then [] else [buf[i + 2..e]] + Scan(buf[Past(buf, e)..]).0
  {
    hide Scan, Terminator;
    var b := buf[i..];
    assert IntroducerAt(b, 0);
    ScanSequence(b);
    ShiftTerminator(buf, i, 2);
    var e := Terminator(buf, i + 2);
    if e != -1 {
      assert b[2..e - i] == buf[i + 2..e];
      assert b[Past(b, e - i)..] == buf[Past(buf, e)..];
    }
  }

  /** Losing the first byte loses payload exactly when a complete sequence begins there. */
  lemma DropOne(buf: bytes)
    requires buf != []
    ensures if CutsSequence(buf, 1) then Weight(Scan(buf[1..]).0) < Weight(Scan(buf).0)
            else Scan(buf[1..]).0 == Scan(buf).0
  {
    hide Scan;
    var s, i := Introducer(buf, 0), Introducer(buf, 1);
    ShiftIntroducer(buf);
    DropOneScan(buf);
    if s == -1 {
      ScanText(buf);
    } else if s > 0 {
      DropText(buf, s);
    } else {
      var e := Terminator(buf, 2);
      assert buf[0..] == buf;
      ScanFrom(buf, 0);
      if i != -1 {
        ScanFrom(buf, i);
        if e == -1 || i < e {
          TerminatorLater(buf, 2, i + 2);
        } else {
          AfterSequence(buf, i, e);
        }
      }
    }
  }

  /** Past the first sequence, the next introducer is the next one of the rest. */
  lemma AfterSequence(buf: bytes, i: nat, e: nat)
    requires TerminatorAt(buf, e) && i == Introducer(buf, 1) && 1 <= e <= i
    ensures Scan(buf[Past(buf, e)..]) == Scan(buf[i..])
  {
    var n := Past(buf, e);
    var rest := buf[n..];
    assert i >= n;
    assert forall k :: 0 <= k < |rest| ==> IntroducerAt(rest, k) == IntroducerAt(buf, n + k);
    var j := Introducer(rest, 0);
    assert IntroducerAt(rest, i - n);
    assert j == i - n;
    DropText(rest, j);
    assert rest[j..] == buf[i..];
  }

  /** A read beyond the bound extracts the same payloads exactly when the cut meets no complete sequence. */
  lemma {:induction false} CutLosesPayload(buf: bytes, k: nat)
    requires k <= |buf|
    ensures Weight(Scan(buf[k..]).0) <= Weight(Scan(buf).0)
    ensures Scan(buf[k..]).0 == Scan(buf).0 <==> !CutsSequence(buf, k)
    decreases k
  {
    hide Scan;
    if k == 0 {
      assert buf[0..] == buf;
    } else {
      var b := buf[1..];
      assert b[k - 1..] == buf[k..];
      CutLosesPayload(b, k - 1);
      DropOne(buf);
      CutShifts(buf, k);
    }
  }

  lemma CutShifts(buf: bytes, k: nat)
    requires 0 < k <= |buf|
    ensures CutsSequence(buf, k) <==> CutsSequence(buf, 1) || CutsSequence(buf[1..], k - 1)
  {
    ShiftIntroducer(buf);
    var s, i := Introducer(buf, 0), Introducer(buf, 1);
    if i != -1 { ShiftTerminator(buf, 1, i + 1); }
    if s == 0 && Terminator(buf, 2) == -1 && i != -1 { TerminatorLater(buf, 2, i + 2); }
  }

  /** The payloads of the sequences that begin before the cut; the last of them may be cut itself. */
  function Before(buf: bytes, k: nat): nat
    decreases |buf|
  {
    var s := Introducer(buf, 0);
    if s == -1 || s >= k then 0
    else
      var e := Terminator(buf, s + 2);
      if e == -1 then 0
      else if Past(buf, e) <= k then 1 + Before(buf[Past(buf, e)..], k - Past(buf, e))
      else 1
  }

  /**
    What a cut makes of the sequence it falls into: an introducer in the part of
    the body that is left opens a sequence the stream never had.
  */
  function Fragment(buf: bytes, k: nat): Option<bytes>
    decreases |buf|
  {
    var s := Introducer(buf, 0);
    if s == -1 || s >= k then None
    else
      var e := Terminator(buf, s + 2);
      if e == -1 then None
      else if Past(buf, e) <= k then Fragment(buf[Past(buf, e)..], k - Past(buf, e))
      else
        var i := Introducer(buf, k);
        if i == -1 || i >= e then None else Some(buf[i + 2..e])
  }

  function Listed(p: Option<bytes>): seq<bytes> {
    if p == None then [] else [p.value]
  }

  /** Where nothing begins, the next introducer is the same from either end. */
  lemma SameIntroducer(buf: bytes, a: nat, b: nat)
    requires a <= b && forall k :: a <= k < b ==> !IntroducerAt(buf, k)
    ensures Introducer(buf, a) == Introducer(buf, b)
  {
    var i, j := Introducer(buf, a), Introducer(buf, b);
    assert i != -1 ==> i >= b;
    assert j != -1 && j < |buf|  ==> IntroducerAt(buf, j);
  }

  lemma IntroducerBehind(buf: bytes, k: nat)
    requires k <= |buf|
    ensures Introducer(buf[k..], 0) == if Introducer(buf, k) == -1 then -1 else Introducer(buf, k) - k
  {
    hide Introducer;
    var b, i := buf[k..], Introducer(buf, k);
    var j := Introducer(b, 0);
    assert forall n :: 0 <= n < |b| ==> IntroducerAt(b, n) == IntroducerAt(buf, k + n);
    assert i != -1 ==> IntroducerAt(b, i - k);
    assert j != -1 ==> IntroducerAt(buf, k + j);
  }

  /** What a cut leaves is scanned from the next introducer on. */
  lemma ScanAt(buf: bytes, k: nat)
    requires k <= |buf|
    ensures Scan(buf[k..]).0 == if Introducer(buf, k) == -1 then [] else Scan(buf[Introducer(buf, k)..]).0
  {
    hide Introducer, Scan;
    var b, i := buf[k..], Introducer(buf, k);
    IntroducerBehind(buf, k);
    if i == -1 {
      ScanText(b);
    } else {
      DropText(b, i - k);
      assert b[i - k..] == buf[i..];
    }
  }

  /** In the body of a sequence the next introducer opens one with the same end. */
  lemma OpensInBody(buf: bytes, s: nat, i: nat)
    requires IntroducerAt(buf, s) && IntroducerAt(buf, i) && s < i
    requires var e := Terminator(buf, s + 2); e == -1 || i < e
    ensures i + 2 <= |buf| && Terminator(buf, i + 2) == Terminator(buf, s + 2)
    ensures var e := Terminator(buf, s + 2); e == -1 || i + 2 <= e
  {
    hide Terminator;
    var e := Terminator(buf, s + 2);
    assert i >= s + 2;
    assert e != -1 ==> TerminatorAt(buf, e) && i + 1 != e;
    TerminatorLater(buf, s + 2, i + 2);
  }

  /** Nothing begins between the last byte of a body and the end of its terminator. */
  lemma BehindBody(buf: bytes, k: nat, e: nat)
    requires TerminatorAt(buf, e) && k < Past(buf, e) && (Introducer(buf, k) == -1 || Introducer(buf, k) >= e)
    ensures Introducer(buf, k) == Introducer(buf, Past(buf, e))
  {
    hide Introducer;
    SameIntroducer(buf, k, Past(buf, e));
  }

  /** The cut falls behind the start of a sequence that ends at `e`, or never does. */
  lemma CutInBody(buf: bytes, s: nat, k: nat)
    requires IntroducerAt(buf, s) && s < k <= |buf|
    requires var e := Terminator(buf, s + 2); e == -1 || k < Past(buf, e)
    ensures var e, i := Terminator(buf, s + 2), Introducer(buf, k);
      Scan(buf[k..]).0 == if e == -1 then []
                          else if i != -1 && i < e then [buf[i + 2..e]] + Scan(buf[Past(buf, e)..]).0
                          else Scan(buf[Past(buf, e)..]).0
  {
    hide Scan, Introducer, Terminator;
    var e, i := Terminator(buf, s + 2), Introducer(buf, k);
    ScanAt(buf, k);
    if i != -1 && (e == -1 || i < e) {
      OpensInBody(buf, s, i);
      hide IntroducerAt, TerminatorAt;
      ScanFrom(buf, i);
    } else if e != -1 {
      BehindBody(buf, k, e);
      hide IntroducerAt, TerminatorAt;
      ScanAt(buf, Past(buf, e));
    }
  }

  lemma TailOfTail(p: bytes, xs: seq<bytes>, n: nat)
    requires n <= |xs|
    ensures ([p] + xs)[1 + n..] == xs[n..] && [] + xs[n..] == xs[n..]
  {
  }

  /** The end of the first sequence of the buffer. */
  function FirstPast(buf: bytes): (n: nat)
    requires Introducer(buf, 0) != -1 && Terminator(buf, Introducer(buf, 0) + 2) != -1
    ensures n <= |buf|
  {
    Past(buf, Terminator(buf, Introducer(buf, 0) + 2))
  }

  /** Cutting beyond the first sequence is cutting what follows it. */
  lemma CutBeyond(buf: bytes, k: nat, rest: bytes, n: nat)
    requires Introducer(buf, 0) != -1 && Introducer(buf, 0) < k <= |buf|
    requires Terminator(buf, Introducer(buf, 0) + 2) != -1 && FirstPast(buf) <= k
    requires rest == buf[FirstPast(buf)..] && n == k - FirstPast(buf)
    ensures Before(buf, k) == 1 + Before(rest, n) && Fragment(buf, k) == Fragment(rest, n)
    ensures exists p :: Scan(buf).0 == [p] + Scan(rest).0
  {
    hide Introducer, Terminator;
    var s := Introducer(buf, 0);
    assert Scan(buf).0 == [buf[s + 2..Terminator(buf, s + 2)]] + Scan(rest).0;
  }

  lemma CutNowhere(buf: bytes, k: nat)
    requires k <= |buf| && (Introducer(buf, 0) == -1 || Introducer(buf, 0) >= k)
    ensures Scan(buf[k..]).0 == Scan(buf).0
  {
    hide Scan, Introducer;
    ScanAt(buf, 0);
    assert buf[0..] == buf;
    SameIntroducer(buf, 0, k);
    ScanAt(buf, k);
  }

  lemma CutWithin(buf: bytes, k: nat)
    requires k <= |buf|
    requires var s := Introducer(buf, 0);
      0 <= s < k && var e := Terminator(buf, s + 2); e == -1 || k < Past(buf, e)
    ensures Before(buf, k) <= |Scan(buf).0|
    ensures Scan(buf[k..]).0 == Listed(Fragment(buf, k)) + Scan(buf).0[Before(buf, k)..]
  {
    hide Introducer, Terminator;
    var s := Introducer(buf, 0);
    var e := Terminator(buf, s + 2);
    assert Before(buf, k) == if e == -1 then 0 else 1;
    assert Fragment(buf, k) == if e == -1 then None else
      var i := Introducer(buf, k); if i == -1 || i >= e then None else Some(buf[i + 2..e]);
    hide Scan, Before, Fragment;
    CutInBody(buf, s, k);
    assert Scan(buf).0 == Scan(buf[s..]).0 by {
      ScanAt(buf, 0);
      assert buf[0..] == buf;
    }
    ScanFrom(buf, s);
    if e != -1 { TailOfTail(buf[s + 2..e], Scan(buf[Past(buf, e)..]).0, 0); }
  }

  /**
    The payloads after a cut are those of the sequences that begin behind it,
    and before them the fragment, if there is one.
  */
  lemma {:induction false} CutLeaves(buf: bytes, k: nat)
    requires k <= |buf|
    ensures Before(buf, k) <= |Scan(buf).0|
    ensures Scan(buf[k..]).0 == Listed(Fragment(buf, k)) + Scan(buf).0[Before(buf, k)..]
    decreases |buf|
  {
    var s := Introducer(buf, 0);
    if s == -1 || s >= k {
      assert Before(buf, k) == 0 && Fragment(buf, k) == None;
      hide Scan, Before, Fragment, Terminator, Introducer;
      CutNowhere(buf, k);
    } else {
      hide Scan, Before, Fragment, Terminator, Introducer;
      var e := Terminator(buf, s + 2);
      if e != -1 && Past(buf, e) <= k {
        var rest, n := buf[Past(buf, e)..], k - Past(buf, e);
        CutLeaves(rest, n);
        CutBeyond(buf, k, rest, n);
        assert rest[n..] == buf[k..];
        var p :| Scan(buf).0 == [p] + Scan(rest).0;
        TailOfTail(p, Scan(rest).0, Before(rest, n));
      } else {
        CutWithin(buf, k);
      }
    }
  }

  /**
    A cut yields a payload the buffer never held exactly when it falls into a
    complete sequence, an introducer stands in what is left of its body, and
    what follows that introducer is the payload of no sequence.
  */
  lemma CutGains(buf: bytes, k: nat)
    requires k <= |buf|
    ensures (exists p :: p in Scan(buf[k..]).0 && p !in Scan(buf).0)
       <==> (Fragment(buf, k) != None && Fragment(buf, k).value !in Scan(buf).0)
  {
    hide Scan, Fragment, Before;
    CutLeaves(buf, k);
    var all, n, f := Scan(buf).0, Before(buf, k), Fragment(buf, k);
    assert forall p :: p in all[n..] ==> p in all;
    if f != None && f.value !in all { assert f.value in Scan(buf[k..]).0; }
  }

  lemma BoundCuts(whole: bytes, k: nat)
    requires k > 0 && |whole| == 65536 + k
    ensures Bound(whole) == whole[k..]
  {
  }

  /** The same, for one read that overflows the buffer. */
  lemma OversizedRead(buffer: bytes, data: bytes)
    requires data != [] && |buffer| + |data| > 65536
    ensures FeedOne(buffer, data).0 == Scan(buffer + data).0
       <==> !CutsSequence(buffer + data, |buffer| + |data| - 65536)
  {
    hide Scan, CutsSequence, Bound;
    var whole, k := buffer + data, |buffer| + |data| - 65536;
    CutLosesPayload(whole, k);
    BoundCuts(whole, k);
  }

  // ---------------------------------------------------------------------
  // A read beyond the bound
  // ---------------------------------------------------------------------

  /** `133;D`: a command has finished. */
  const MARKER: bytes := [0x31, 0x33, 0x33, 0x3B, 0x44]

  /** One OSC string: text, ESC ], the text of a marker, BEL. */
  function LongString(text: bytes): bytes {
    [ESC, RBRACKET] + text + [ESC, RBRACKET] + MARKER + [BEL]
  }

  lemma FirstTerminatorIs(buf: bytes, i: nat, e: nat)
    requires i <= e && TerminatorAt(buf, e) && forall k :: i <= k < e ==> buf[k] != BEL && !StringTerminatorAt(buf, k)
    ensures Terminator(buf, i) == e
  {
  }

  lemma FirstIntroducerIs(buf: bytes, i: nat, s: nat)
    requires i <= s && IntroducerAt(buf, s) && forall k :: i <= k < s ==> !IntroducerAt(buf, k)
    ensures Introducer(buf, i) == s
  {
  }

  lemma LongStringMarks(text: bytes)
    requires forall k :: 0 <= k < |text| ==> text[k] == 0x61
    ensures var buf, n := LongString(text), |text|;
      && |buf| == n + 10 && buf[n + 9] == BEL
      && Introducer(buf, 0) == 0 && Introducer(buf, 1) == n + 2
      && Terminator(buf, 2) == n + 9
      && buf[n + 4..n + 9] == MARKER && buf[2..n + 9] == text + [ESC, RBRACKET] + MARKER
  {
    hide Terminator, Introducer;
    var buf, n := LongString(text), |text|;
    var i, e := n + 2, n + 9;
    assert buf[0] == ESC && buf[1] == RBRACKET && buf[i] == ESC && buf[i + 1] == RBRACKET && buf[e] == BEL;
    assert forall k :: 2 <= k < i ==> buf[k] == text[k - 2];
    assert forall k :: i + 2 <= k < e ==> buf[k] == MARKER[k - i - 2];
    FirstTerminatorIs(buf, 2, e);
    FirstIntroducerIs(buf, 0, 0);
    FirstIntroducerIs(buf, 1, i);
  }

  /** Without its first byte the string is the marker; with it, it is no marker at all. */
  lemma LongStringScans(text: bytes)
    requires forall k :: 0 <= k < |text| ==> text[k] == 0x61
    ensures var buf := LongString(text);
      Scan(buf[1..]).0 == [MARKER] && Scan(buf).0 == [text + [ESC, RBRACKET] + MARKER]
  {
    var buf, e := LongString(text), |text| + 9;
    LongStringMarks(text);
    hide Terminator, Introducer, Scan, LongString;
    ScanNothing();
    assert buf[Past(buf, e)..] == [];
    CutInBody(buf, 0, 1);
    ScanFrom(buf, 0);
    assert buf[0..] == buf;
    assert [MARKER] + [] == [MARKER];
  }

  lemma ScanNothing()
    ensures Scan([]).0 == []
  {
  }

  /**
    A read one byte above the bound: the stream holds one long string and no
    marker, and the parser extracts a marker.
  */
  lemma MarkerFromBody(text: bytes)
    requires |text| == MAX_OSC - 9 && forall k :: 0 <= k < |text| ==> text[k] == 0x61
    ensures FeedOne([], LongString(text)).0 == [MARKER]
    ensures Scan(LongString(text)).0 == [text + [ESC, RBRACKET] + MARKER]
  {
    LongStringMarks(text);
    LongStringScans(text);
    hide Terminator, Introducer, Scan, LongString;
    var buf := LongString(text);
    assert [] + buf == buf;
    BoundCuts(buf, 1);
    hide Bound;
  }
}
