/** Bytes, byte strings and optional values shared by every module. */
module Bytes {
  newtype byte = x: int | 0 <= x < 256
  type bytes = seq<byte>

  const ESC: byte := 0x1B
  const BEL: byte := 0x07
  const LBRACKET: byte := 0x5B
  const RBRACKET: byte := 0x5D
  const BACKSLASH: byte := 0x5C

  datatype Option<+T> = None | Some(value: T)

  function Min(a: int, b: int): int {
    if a <= b then a else b
  }

  function Max(a: int, b: int): int {
    if a >= b then a else b
  }

  /** The concatenation of a list of sequences. */
  function Flatten<T>(chunks: seq<seq<T>>): seq<T> {
    if chunks == [] then [] else chunks[0] + Flatten(chunks[1..])
  }

  lemma {:induction false} FlattenAppend<T>(a: seq<seq<T>>, b: seq<seq<T>>)
    ensures Flatten(a + b) == Flatten(a) + Flatten(b)
  {
    if a == [] {
      assert a + b == b;
    } else {
      FlattenAppend(a[1..], b);
      assert (a + b)[1..] == a[1..] + b;
      assert a[0] + (Flatten(a[1..]) + Flatten(b)) == a[0] + Flatten(a[1..]) + Flatten(b);
    }
  }

  /** The first index at or after `from` holding `b`, or -1 (Python's `bytes.find`). */
  method FindByte(buf: bytes, b: byte, from: nat) returns (at: int)
    requires from <= |buf|
    ensures at == -1 || from <= at < |buf|
    ensures at == -1 ==> forall k :: from <= k < |buf| ==> buf[k] != b
    ensures at != -1 ==> buf[at] == b && forall k :: from <= k < at ==> buf[k] != b
  {
    at := from;
    while at < |buf|
      invariant from <= at <= |buf|
      invariant forall k :: from <= k < at ==> buf[k] != b
    {
      if buf[at] == b { return; }
      at := at + 1;
    }
    at := -1;
  }
}
