/** Shell-integration markers: OSC payloads pulled from a stream that arrives in pieces. */
module OscParser {
  import opened Bytes

  const MAX_OSC := 64 * 1024

  // ---------------------------------------------------------------------
  // The parser
  // ---------------------------------------------------------------------

  predicate IntroducerAt(buf: bytes, i: int) {
    0 <= i && i + 1 < |buf| && buf[i] == ESC && buf[i + 1] == RBRACKET
  }

  predicate StringTerminatorAt(buf: bytes, i: int) {
    0 <= i && i + 1 < |buf| && buf[i] == ESC && buf[i + 1] == BACKSLASH
  }

  /** The first introducer at or after `i`, or -1. */
  function Introducer(buf: bytes, i: nat): (s: int)
    ensures s == -1 || (i <= s && IntroducerAt(buf, s))
    ensures forall k :: i <= k < (if s == -1 then |buf| else s) ==> !IntroducerAt(buf, k)
    decreases |buf| - i
  {
    if i >= |buf| then -1 else if IntroducerAt(buf, i) then i else Introducer(buf, i + 1)
  }

  predicate TerminatorAt(buf: bytes, i: int) {
    0 <= i < |buf| && (buf[i] == BEL || StringTerminatorAt(buf, i))
  }

  /** The first BEL or ST at or after `i`, or -1. */
  function Terminator(buf: bytes, i: nat): (e: int)
    ensures e == -1 || (i <= e && TerminatorAt(buf, e))
    ensures forall k :: i <= k < (if e == -1 then |buf| else e) ==> !TerminatorAt(buf, k)
    decreases |buf| - i
  {
    if i >= |buf| then -1 else if TerminatorAt(buf, i) then i else Terminator(buf, i + 1)
  }

  /** Just past the terminator at `e`. */
  function Past(buf: bytes, e: nat): (n: nat)
    requires TerminatorAt(buf, e)
    ensures e < n <= |buf|
  {
    if buf[e] == BEL then e + 1 else e + 2
  }

  /** The payloads complete in `buf`, and what is kept for the next read. */
  function Scan(buf: bytes): (seq<bytes>, bytes)
    decreases |buf|
  {
    var s := Introducer(buf, 0);
    if s == -1 then ([], if |buf| > 1 then buf[|buf| - 1..] else buf)
    else
      var e := Terminator(buf, s + 2);
      if e == -1 then ([], buf[s..])
      else
        var (rest, left) := Scan(buf[Past(buf, e)..]);
        ([buf[s + 2..e]] + rest, left)
  }

  /** At most the last `MAX_OSC` bytes are looked at. */
  function Bound(buf: bytes): bytes {
    if |buf| > MAX_OSC then buf[|buf| - MAX_OSC..] else buf
  }

  /** One read: the payloads it completes, and the new buffer. */
  function FeedOne(buffer: bytes, data: bytes): (seq<bytes>, bytes) {
    if data == [] then ([], buffer) else Scan(Bound(buffer + data))
  }

  class CommandBlockParser {
    var buffer: bytes

    constructor ()
      ensures buffer == []
    {
      buffer := [];
    }

    method Feed(data: bytes) returns (payloads: seq<bytes>)
      modifies this
      ensures (payloads, buffer) == FeedOne(old(buffer), data)
    {
      hide Scan, Introducer, Terminator;
      payloads := [];
      if data == [] { return; }
      buffer := buffer + data;
      if |buffer| > MAX_OSC { buffer := buffer[|buffer| - MAX_OSC..]; }
      ghost var whole := buffer;
      assert payloads + Scan(buffer).0 == Scan(buffer).0;
      while true
        invariant payloads + Scan(buffer).0 == Scan(whole).0 && Scan(buffer).1 == Scan(whole).1
        decreases |buffer|
      {
        var start := FindPair(buffer, ESC, RBRACKET, 0);
        FoundIntroducer(buffer, start);
        if start < 0 {
          ScanText(buffer);
          assert payloads + [] == payloads;
          if |buffer| > 1 { buffer := buffer[|buffer| - 1..]; }
          return;
        }
        DropText(buffer, start);
        if start > 0 { buffer := buffer[start..]; } else { assert buffer[0..] == buffer; }
        var end, consumed := FindTerminator(buffer);
        ScanSequence(buffer);
        if end < 0 {
          assert payloads + [] == payloads;
          return;
        }
        var payload := buffer[2..end];
        buffer := buffer[consumed..];
        assert payloads + ([payload] + Scan(buffer).0) == payloads + [payload] + Scan(buffer).0;
        payloads := payloads + [payload];
      }
    }
  }

  lemma ScanText(buf: bytes)
    requires Introducer(buf, 0) == -1
    ensures Scan(buf) == ([], if |buf| > 1 then buf[|buf| - 1..] else buf)
  {
  }

  lemma ScanSequence(buf: bytes)
    requires Introducer(buf, 0) == 0
    ensures var e := Terminator(buf, 2);
      Scan(buf) == if e == -1 then ([], buf)
                   else ([buf[2..e]] + Scan(buf[Past(buf, e)..]).0, Scan(buf[Past(buf, e)..]).1)
  {
    assert buf[0..] == buf;
  }

  /** The first index at or after `from` holding `a` and then `b`, or -1. */
  method FindPair(buf: bytes, a: byte, b: byte, from: nat) returns (at: int)
    ensures at == -1 || (from <= at && at + 1 < |buf| && buf[at] == a && buf[at + 1] == b)
    ensures forall k :: from <= k < (if at == -1 then |buf| - 1 else at) ==> !(buf[k] == a && buf[k + 1] == b)
  {
    at := from;
    while at + 1 < |buf|
      invariant from <= at
      invariant forall k :: from <= k < at && k + 1 < |buf| ==> !(buf[k] == a && buf[k + 1] == b)
    {
      if buf[at] == a && buf[at + 1] == b { return; }
      at := at + 1;
    }
    at := -1;
  }

  /** The end of the payload of a sequence that starts at 0; whichever of BEL and ST comes first. */
  method FindTerminator(buf: bytes) returns (end: int, consumed: nat)
    requires |buf| >= 2
    ensures end == Terminator(buf, 2)
    ensures end >= 0 ==> consumed == Past(buf, end)
  {
    var bel := FindByte(buf, BEL, 2);
    var st := FindPair(buf, ESC, BACKSLASH, 2);
    FirstTerminator(buf, bel, st);
    if bel < 0 && st < 0 { return -1, 0; }
    if st >= 0 && (bel < 0 || st < bel) { return st, st + 2; }
    return bel, bel + 1;
  }

  lemma FirstTerminator(buf: bytes, bel: int, st: int)
    requires |buf| >= 2
    requires bel == -1 || (2 <= bel < |buf| && buf[bel] == BEL)
    requires forall k :: 2 <= k < (if bel == -1 then |buf| else bel) ==> buf[k] != BEL
    requires st == -1 || (2 <= st && st + 1 < |buf| && buf[st] == ESC && buf[st + 1] == BACKSLASH)
    requires forall k :: 2 <= k < (if st == -1 then |buf| - 1 else st) ==> !(buf[k] == ESC && buf[k + 1] == BACKSLASH)
    ensures Terminator(buf, 2) == if bel == -1 then st else if st == -1 then bel else Min(bel, st)
  {
    var e := Terminator(buf, 2);
    assert e != -1 ==> TerminatorAt(buf, e);
    assert bel != -1 ==> TerminatorAt(buf, bel);
    assert st != -1 ==> TerminatorAt(buf, st);
  }

  lemma FoundIntroducer(buf: bytes, start: int)
    requires start == -1 || (0 <= start && IntroducerAt(buf, start))
    requires forall k :: 0 <= k < (if start == -1 then |buf| - 1 else start) ==>
      !(buf[k] == ESC && buf[k + 1] == RBRACKET)
    ensures start == Introducer(buf, 0)
  {
    var s := Introducer(buf, 0);
    assert s != -1 ==> IntroducerAt(buf, s);
  }

  /** Text before the introducer does not matter to the scan. */
  lemma DropText(buf: bytes, start: int)
    requires 0 <= start && start == Introducer(buf, 0)
    ensures Scan(buf[start..]) == Scan(buf)
    ensures Introducer(buf[start..], 0) == 0
  {
    hide Terminator;
    var b := buf[start..];
    ShiftTerminator(buf, start, 2);
    assert IntroducerAt(b, 0);
    var e := Terminator(buf, start + 2);
    if e != -1 {
      assert b[Past(b, e - start)..] == buf[Past(buf, e)..];
      assert b[2..e - start] == buf[start + 2..e];
    }
  }

  lemma {:induction false} ShiftTerminator(buf: bytes, n: nat, i: nat)
    requires n <= |buf|
    ensures Terminator(buf[n..], i) == (if Terminator(buf, n + i) == -1 then -1 else Terminator(buf, n + i) - n)
    ensures Terminator(buf, n + i) != -1
        ==> Past(buf[n..], Terminator(buf, n + i) - n) == Past(buf, Terminator(buf, n + i)) - n
    decreases |buf| - i
  {
    assert TerminatorAt(buf[n..], i) == TerminatorAt(buf, n + i);
    if n + i < |buf| && !TerminatorAt(buf, n + i) { ShiftTerminator(buf, n, i + 1); }
  }

  // ---------------------------------------------------------------------
  // The reference: one byte at a time
  // ---------------------------------------------------------------------

  /** `Body(p, e)`: inside an OSC with payload `p` so far; `e` says an ESC is pending after it. */
  datatype State = Plain | Esc | Body(payload: bytes, pending: bool)

  function Step(s: State, b: byte): (State, seq<bytes>) {
    match s
    case Plain => (if b == ESC then Esc else Plain, [])
    case Esc => (if b == RBRACKET then Body([], false) else if b == ESC then Esc else Plain, [])
    case Body(p, false) =>
      if b == BEL then (Plain, [p]) else if b == ESC then (Body(p, true), []) else (Body(p + [b], false), [])
    case Body(p, true) =>
      if b == BACKSLASH then (Plain, [p])
      else if b == BEL then (Plain, [p + [ESC]])
      else if b == ESC then (Body(p + [ESC], true), [])
      else (Body(p + [ESC, b], false), [])
  }

  function Machine(s: State, buf: bytes): (State, seq<bytes>)
    decreases |buf|
  {
    if buf == [] then (s, [])
    else
      var (s1, out1) := Step(s, buf[0]);
      var (s2, out2) := Machine(s1, buf[1..]);
      (s2, out1 + out2)
  }

  lemma {:induction false} MachineAppend(s: State, a: bytes, b: bytes)
    ensures var (s1, out1) := Machine(s, a);
      var (s2, out2) := Machine(s1, b);
      Machine(s, a + b) == (s2, out1 + out2)
    decreases |a|
  {
    if a == [] {
      assert [] + b == b;
      assert [] + Machine(s, b).1 == Machine(s, b).1;
    } else {
      var (s0, out0) := Step(s, a[0]);
      MachineAppend(s0, a[1..], b);
      assert (a + b)[1..] == a[1..] + b;
      var (s1, out1) := Machine(s0, a[1..]);
      var out2 := Machine(s1, b).1;
      assert out0 + (out1 + out2) == out0 + out1 + out2;
    }
  }

  /** Text without an introducer: nothing is emitted, and only a final ESC is remembered. */
  lemma {:induction false} MachineText(s: State, buf: bytes)
    requires s == Plain || s == Esc
    requires s == Esc && buf != [] ==> buf[0] != RBRACKET
    requires forall k :: 0 <= k < |buf| ==> !IntroducerAt(buf, k)
    ensures Machine(s, buf) == (if buf == [] then s else if buf[|buf| - 1] == ESC then Esc else Plain, [])
    decreases |buf|
  {
    if buf != [] {
      var s1 := Step(s, buf[0]).0;
      assert !IntroducerAt(buf, 0);
      assert forall k :: 0 <= k < |buf[1..]| ==> IntroducerAt(buf[1..], k) == IntroducerAt(buf, k + 1);
      MachineText(s1, buf[1..]);
      assert Machine(s, buf).1 == [] + Machine(s1, buf[1..]).1;
    }
  }

  /** The payload read so far, with the ESC that is pending. */
  function Read(s: State): bytes
    requires s.Body?
  {
    if s.pending then s.payload + [ESC] else s.payload
  }

  lemma StepInBody(s: State, b: byte)
    requires s.Body? && b != BEL && !(s.pending && b == BACKSLASH)
    ensures var (s1, out) := Step(s, b);
      out == [] && s1.Body? && Read(s1) == Read(s) + [b] && s1.pending == (b == ESC)
  {
  }

  /** Inside a body, without a terminator, bytes accumulate. */
  lemma {:induction false} MachineBody(s: State, buf: bytes)
    requires s.Body? && (s.pending && buf != [] ==> buf[0] != BACKSLASH)
    requires forall k :: 0 <= k < |buf| ==> !TerminatorAt(buf, k)
    ensures var (s1, out) := Machine(s, buf);
      out == [] && s1.Body? && Read(s1) == Read(s) + buf
    decreases |buf|
  {
    hide Step, Read;
    if buf == [] {
      assert Read(s) + [] == Read(s);
    } else {
      var tail := buf[1..];
      assert !TerminatorAt(buf, 0);
      assert forall k :: 0 <= k < |tail| ==> TerminatorAt(tail, k) == TerminatorAt(buf, k + 1);
      StepInBody(s, buf[0]);
      var s1 := Step(s, buf[0]).0;
      MachineBody(s1, tail);
      assert Read(s) + [buf[0]] + tail == Read(s) + buf;
      assert Machine(s, buf).1 == [] + Machine(s1, tail).1;
    }
  }

  /** The state that the kept tail stands for. */
  ghost function Kept(left: bytes): State {
    Machine(Plain, left).0
  }

  /** The scanner computes what the machine does, and keeps enough of it to go on. */
  lemma {:induction false} ScanIsMachine(buf: bytes)
    ensures var (payloads, left) := Scan(buf);
      && Machine(Plain, buf) == (Kept(left), payloads)
      && Machine(Plain, left).1 == []
    decreases |buf|
  {
    hide Step;
    var s := Introducer(buf, 0);
    if s == -1 {
      MachineText(Plain, buf);
      TailText(buf);
    } else {
      MachineIntroducer(buf, s);
      var e := Terminator(buf, s + 2);
      if e == -1 {
        MachineIntroducer(buf[s..], 0);
        var body := buf[s + 2..];
        assert buf[s..][2..] == body;
        forall k | 0 <= k < |body| ensures !TerminatorAt(body, k) {
          assert TerminatorAt(body, k) == TerminatorAt(buf, s + 2 + k);
        }
        MachineBody(Body([], false), body);
      } else {
        var rest := buf[Past(buf, e)..];
        MachineSequence(buf, s, e);
        ScanIsMachine(rest);
      }
    }
  }

  lemma TailText(buf: bytes)
    requires Introducer(buf, 0) == -1
    ensures var left := if |buf| > 1 then buf[|buf| - 1..] else buf;
      Machine(Plain, left) == (if buf != [] && buf[|buf| - 1] == ESC then Esc else Plain, [])
  {
    var left := if |buf| > 1 then buf[|buf| - 1..] else buf;
    MachineText(Plain, left);
  }

  lemma EnterBody(s: State)
    requires s == Plain || s == Esc
    ensures Machine(s, [ESC, RBRACKET]) == (Body([], false), [])
  {
    var head: bytes := [ESC, RBRACKET];
    assert head[1..] == [RBRACKET] && head[1..][1..] == [];
    var none: seq<bytes> := [];
    assert none + none == none;
    assert Machine(Body([], false), []) == (Body([], false), none);
    assert Machine(Esc, [RBRACKET]) == (Body([], false), none);
  }

  /** Through the introducer the machine has emitted nothing and entered an empty body. */
  lemma MachineIntroducer(buf: bytes, s: nat)
    requires s == Introducer(buf, 0)
    ensures Machine(Plain, buf[..s + 2]) == (Body([], false), [])
    ensures Machine(Plain, buf) == Machine(Body([], false), buf[s + 2..])
  {
    var text, head, rest := buf[..s], buf[s..s + 2], buf[s + 2..];
    forall k | 0 <= k < |text| ensures !IntroducerAt(text, k) {
      assert IntroducerAt(text, k) ==> IntroducerAt(buf, k);
    }
    MachineText(Plain, text);
    var s1 := Machine(Plain, text).0;
    assert head == [ESC, RBRACKET];
    EnterBody(s1);
    hide Machine;
    MachineAppend(Plain, text, head);
    assert buf[..s + 2] == text + head;
    MachineAppend(Plain, buf[..s + 2], rest);
    assert buf == buf[..s + 2] + rest;
    assert [] + Machine(Body([], false), rest).1 == Machine(Body([], false), rest).1;
  }

  /** Through a whole sequence the machine has emitted its payload and is back in plain text. */
  lemma MachineSequence(buf: bytes, s: nat, e: nat)
    requires s == Introducer(buf, 0) && e == Terminator(buf, s + 2)
    ensures var rest := buf[Past(buf, e)..];
      Machine(Plain, buf) == (Machine(Plain, rest).0, [buf[s + 2..e]] + Machine(Plain, rest).1)
  {
    hide Machine, Introducer, Terminator;
    MachineIntroducer(buf, s);
    var body, term, rest := buf[s + 2..e], buf[e..Past(buf, e)], buf[Past(buf, e)..];
    forall k | 0 <= k < |body| ensures !TerminatorAt(body, k) {
      assert TerminatorAt(body, k) ==> TerminatorAt(buf, s + 2 + k);
    }
    MachineBody(Body([], false), body);
    var b := Machine(Body([], false), body).0;
    TerminatorBytes(buf, e);
    assert [] + body == body;
    MachineEnd(b, term, body);
    MachineAppend(Body([], false), body, term);
    MachineAppend(Body([], false), body + term, rest);
    assert buf[s + 2..] == body + term + rest;
    assert [] + [body] == [body];
  }

  lemma TerminatorBytes(buf: bytes, e: nat)
    requires TerminatorAt(buf, e)
    ensures buf[e..Past(buf, e)] == [BEL] || buf[e..Past(buf, e)] == [ESC, BACKSLASH]
  {
  }

  lemma MachineEnd(b: State, term: bytes, body: bytes)
    requires b.Body? && Read(b) == body
    requires term == [BEL] || term == [ESC, BACKSLASH]
    ensures Machine(b, term) == (Plain, [body])
  {
    if term == [BEL] {
      assert term[1..] == [];
      assert [body] + [] == [body];
    } else {
      assert term[1..] == [BACKSLASH] && term[1..][1..] == [];
      var s1 := Step(b, ESC).0;
      assert s1 == Body(body, true);
      assert Machine(s1, term[1..]) == (Plain, [body] + []);
      assert [] + ([body] + []) == [body];
    }
  }

  // ---------------------------------------------------------------------
  // Any split of the stream
  // ---------------------------------------------------------------------

  function FeedAll(chunks: seq<bytes>): (seq<bytes>, bytes) {
    if chunks == [] then ([], [])
    else
      var (payloads, buffer) := FeedAll(chunks[..|chunks| - 1]);
      var (more, left) := FeedOne(buffer, chunks[|chunks| - 1]);
      (payloads + more, left)
  }

  /** Every read, with the tail kept before it, stays within the buffer's bound. */
  predicate WithinBound(chunks: seq<bytes>) {
    chunks == []
    || (WithinBound(chunks[..|chunks| - 1])
        && |FeedAll(chunks[..|chunks| - 1]).1| + |chunks[|chunks| - 1]| <= 65536)
  }

  lemma FeedOneIsMachine(buffer: bytes, data: bytes)
    requires |buffer| + |data| <= 65536 && Machine(Plain, buffer).1 == []
    ensures var (payloads, left) := FeedOne(buffer, data);
      Machine(Kept(buffer), data) == (Kept(left), payloads) && Machine(Plain, left).1 == []
  {
    MachineAppend(Plain, buffer, data);
    ScanIsMachine(buffer + data);
    hide Machine, Scan;
    var out := Machine(Kept(buffer), data).1;
    assert [] + out == out;
    if data == [] { MachineNothing(Kept(buffer)); }
  }

  lemma MachineNothing(s: State)
    ensures Machine(s, []) == (s, [])
  {
  }

  /**
    However the stream is split, the payloads extracted read by read are those
    the machine extracts from the whole stream, introducers and terminators
    split across reads included.
  */
  lemma {:induction false} IncrementalParsing(chunks: seq<bytes>)
    requires WithinBound(chunks)
    ensures var (payloads, left) := FeedAll(chunks);
      Machine(Plain, Flatten(chunks)) == (Kept(left), payloads) && Machine(Plain, left).1 == []
    decreases |chunks|
  {
    hide FeedOne, Machine;
    if chunks == [] {
      MachineNothing(Plain);
    } else {
      var before, last := chunks[..|chunks| - 1], chunks[|chunks| - 1];
      IncrementalParsing(before);
      FeedOneIsMachine(FeedAll(before).1, last);
      FlattenAppend(before, [last]);
      assert chunks == before + [last] && Flatten([last]) == last;
      MachineAppend(Plain, Flatten(before), last);
    }
  }
}
