/** How a buffer is read back: by offset, or as frames of a given size. */
module Replay {
  import opened Bytes
  import opened RingSpec

  /** The chunks with the offset of their first byte. */
  function Numbered(chunks: seq<bytes>, at: int): seq<Piece> {
    if chunks == [] then [] else [Piece(at, chunks[0])] + Numbered(chunks[1..], at + |chunks[0]|)
  }

  /** The part of `pieces` at or after offset `last`. */
  function From(pieces: seq<Piece>, last: int): seq<Piece> {
    if pieces == [] then []
    else
      var p := pieces[0];
      var rest := From(pieces[1..], last);
      if p.at + |p.data| <= last then rest
      else if p.at < last then [Piece(last, p.data[last - p.at..])] + rest
      else [p] + rest
  }

  /** Everything at or after `last`; `None` when that is not what the buffer holds. */
  function Since(r: Ring, last: int): Option<seq<Piece>> {
    if last < 0 || last > r.endSeq || last < Base(r) then None
    else Some(From(Numbered(r.chunks, Base(r)), last))
  }

  /** `data` cut into frames of `target` bytes; only the last may be shorter. */
  function Framed(at: int, data: bytes, target: nat): seq<Piece>
    requires target > 0
    decreases |data|
  {
    if data == [] then []
    else if |data| < target then [Piece(at, data)]
    else [Piece(at, data[..target])] + Framed(at + target, data[target..], target)
  }

  function FrameSize(target: int): (t: nat)
    ensures t > 0
  {
    if target <= 0 then 1 else target
  }

  function ReplayFrames(r: Ring, target: int): seq<Piece> {
    Framed(Base(r), Flatten(r.chunks), FrameSize(target))
  }

  /** The pieces are non-empty, adjacent, true to the stream, and run from `from` to `to`. */
  ghost predicate Covers(pieces: seq<Piece>, stream: bytes, from: int, to: int) {
    if pieces == [] then from == to
    else
      var p := pieces[0];
      && 0 <= from == p.at && p.data != [] && p.at + |p.data| <= |stream|
      && p.data == stream[p.at..p.at + |p.data|]
      && Covers(pieces[1..], stream, p.at + |p.data|, to)
  }

  lemma {:induction false} NumberedCovers(chunks: seq<bytes>, at: int, stream: bytes)
    requires 0 <= at <= |stream| && Flatten(chunks) == stream[at..]
    requires forall i :: 0 <= i < |chunks| ==> |chunks[i]| > 0
    ensures Covers(Numbered(chunks, at), stream, at, |stream|)
  {
    if chunks != [] {
      var n := |chunks[0]|;
      assert stream[at..][..n] == chunks[0];
      assert stream[at + n..] == stream[at..][n..] == Flatten(chunks[1..]);
      NumberedCovers(chunks[1..], at + n, stream);
    }
  }

  lemma {:induction false} FromCovers(pieces: seq<Piece>, stream: bytes, from: int, last: int)
    requires Covers(pieces, stream, from, |stream|) && 0 <= from <= |stream| && last <= |stream|
    ensures Covers(From(pieces, last), stream, Max(from, last), |stream|)
  {
    if pieces != [] {
      var p := pieces[0];
      FromCovers(pieces[1..], stream, p.at + |p.data|, last);
      if p.at < last < p.at + |p.data| {
        assert p.data[last - p.at..] == stream[last..p.at + |p.data|];
      }
    }
  }

  lemma {:induction false} ThreadedNonEmpty(chunks: seq<bytes>, inside: seq<Ansi.State>, s: Ansi.State)
    requires |chunks| == |inside| && Threaded(chunks, inside, s)
    ensures forall i :: 0 <= i < |chunks| ==> |chunks[i]| > 0
  {
    if chunks != [] { ThreadedNonEmpty(chunks[1..], inside[1..], inside[0]); }
  }

  /** A resume gives every byte from the offset on, exactly once, or says it cannot. */
  lemma SinceIsExact(r: Ring, stream: bytes, origin: nat, last: int)
    requires Tracks(r, stream, origin)
    ensures Since(r, last).Some? <==> Base(r) <= last <= |stream|
    ensures Since(r, last).Some? ==> Covers(Since(r, last).value, stream, last, |stream|)
  {
    ThreadedNonEmpty(r.chunks, r.inside, StateAt(stream, origin, Base(r)));
    NumberedCovers(r.chunks, Base(r), stream);
    if Since(r, last).Some? {
      FromCovers(Numbered(r.chunks, Base(r)), stream, Base(r), last);
    }
  }

  lemma {:induction false} FramedCovers(at: int, data: bytes, target: nat, stream: bytes)
    requires target > 0 && 0 <= at <= |stream| && data == stream[at..]
    ensures Covers(Framed(at, data, target), stream, at, |stream|)
    decreases |data|
  {
    if |data| >= target {
      assert data[target..] == stream[at + target..];
      assert data[..target] == stream[at..at + target];
      FramedCovers(at + target, data[target..], target, stream);
    } else {
      assert data == stream[at..at + |data|];
    }
  }

  /** No frame exceeds the target, all but the last reach it, so there are as few as possible. */
  lemma {:induction false} FramedIsTight(at: int, data: bytes, target: nat)
    requires target > 0
    ensures var f := Framed(at, data, target);
      && (forall i :: 0 <= i < |f| ==> 0 < |f[i].data| <= target)
      && (forall i :: 0 <= i < |f| - 1 ==> |f[i].data| == target)
      && (data != [] ==> (|f| - 1) * target < |data| <= |f| * target)
      && (data == [] <==> f == [])
    decreases |data|
  {
    var f := Framed(at, data, target);
    if |data| >= target {
      FramedIsTight(at + target, data[target..], target);
      var g := Framed(at + target, data[target..], target);
      assert f == [Piece(at, data[..target])] + g;
      hide Framed;
      assert forall i :: 0 < i < |f| ==> f[i] == g[i - 1];
      assert |f| * target == |g| * target + target;
      assert (|f| - 1) * target == |g| * target;
      assert g != [] ==> (|g| - 1) * target == |g| * target - target;
    } else {
      assert |f| <= 1;
    }
  }

  /** A replay is the whole buffer with true offsets, whatever the frame size asked for. */
  lemma ReplayIsWhole(r: Ring, stream: bytes, origin: nat, target: int)
    requires Tracks(r, stream, origin)
    ensures Covers(ReplayFrames(r, target), stream, Base(r), |stream|)
  {
    FramedCovers(Base(r), Flatten(r.chunks), FrameSize(target), stream);
  }
}
