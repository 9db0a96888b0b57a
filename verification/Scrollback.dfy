/** The scrollback object: it updates in place what module RingSpec says of values. */
module Scrollback {
  import opened Bytes
  import opened Ansi
  import opened RingSpec
  import opened Replay

  class Scrollback {
    const maxBytes: int
    var chunks: seq<bytes>
    var inside: seq<State>
    var tracker: AnsiTracker
    var size: int
    var endSeq: int

    ghost predicate Valid()
      reads this
    {
      maxBytes > 0 && |chunks| == |inside|
    }

    ghost function View(): Ring
      reads this, tracker
    {
      Ring(maxBytes, chunks, inside, tracker.state, size, endSeq)
    }

    constructor (maxBytes: int)
      requires maxBytes > 0
      ensures Valid() && View() == Empty(maxBytes) && fresh(tracker)
    {
      this.maxBytes := maxBytes;
      chunks, inside, size, endSeq := [], [], 0, 0;
      tracker := new AnsiTracker();
    }

    /** A cap that is not positive is refused. */
    static method Create(maxBytes: int) returns (s: Scrollback?)
      ensures s == null <==> maxBytes <= 0
      ensures s != null ==> fresh(s) && fresh(s.tracker) && s.Valid() && s.View() == Empty(maxBytes)
    {
      if maxBytes <= 0 { return null; }
      s := new Scrollback(maxBytes);
    }

    /** Appends `data`; returns the offset of its first byte. */
    method Append(data: bytes) returns (start: int)
      requires Valid()
      modifies this, tracker
      ensures Valid() && View() == RingSpec.Append(old(View()), data)
      ensures start == old(endSeq) && tracker == old(tracker)
    {
      if data == [] { return endSeq; }
      start := endSeq;
      endSeq := endSeq + |data|;
      chunks := chunks + [data];
      var _ := tracker.Feed(data);
      inside := inside + [tracker.state];
      size := size + |data|;
      assert View() == Push(old(View()), data);
      Trim();
    }

    method Clear()
      requires Valid()
      modifies this
      ensures Valid() && View() == RingSpec.Clear(old(View())) && fresh(tracker)
    {
      chunks, inside, size := [], [], 0;
      tracker := new AnsiTracker();
    }

    /** Evicts from the left until within budget, cutting on safe boundaries. */
    method Trim()
      requires Valid()
      modifies this
      ensures Valid() && View() == RingSpec.Trim(old(View())) && tracker == old(tracker)
    {
      ghost var v0 := View();
      var sizeBefore := size;
      var resume := EvictChunks();
      ghost var r1 := View();
      EvictLeavesLittle(v0, Outside);
      ReanchorHead(resume);
      CutHeadTo(sizeBefore);
    }

    /** Drops the chunks wholly in excess; returns the state the last one left. */
    method EvictChunks() returns (resume: State)
      requires Valid()
      modifies this
      ensures Valid() && (View(), resume) == Evict(old(View()), Outside) && tracker == old(tracker)
    {
      ghost var v0 := View();
      resume := Outside;
      while chunks != [] && size - |chunks[0]| >= maxBytes
        invariant Valid() && tracker == old(tracker)
        invariant Evict(View(), resume) == Evict(v0, Outside)
        decreases |chunks|
      {
        ghost var v := View();
        resume := PopHead();
        ghost var v1, s1 := View(), resume;
        while resume != Outside && |chunks| > 1
          invariant Valid() && tracker == old(tracker) && |chunks| < |v.chunks|
          invariant PopInside(View(), resume) == PopInside(v1, s1)
          decreases |chunks|
        {
          resume := PopHead();
        }
      }
    }

    /** Skips the rest of the sequence in which the kept head resumes. */
    method ReanchorHead(resume: State)
      requires Valid()
      modifies this
      ensures Valid() && View() == Reanchor(old(View()), resume) && tracker == old(tracker)
    {
      if chunks != [] && resume != Outside {
        var probe := new AnsiTracker();
        probe.Resume(resume);
        var head := probe.Skip(chunks[0]);
        if head != [] {
          ReplaceHead(head);
        } else {
          assert chunks[0][..|chunks[0]|] == chunks[0];
          if probe.state == Outside {
            var _ := PopHead();
          }
        }
      }
    }

    /** Keeps the tail of a head that is only partly needed, or realigns a new head. */
    method CutHeadTo(sizeBefore: int)
      requires Valid() && Cuttable(View())
      modifies this
      ensures Valid() && View() == CutHead(old(View()), sizeBefore) && tracker == old(tracker)
    {
      if size > maxBytes && chunks != [] {
        var chunk := chunks[0];
        var drop := size - maxBytes;
        var tail := chunk[drop..];
        var probe := new AnsiTracker();
        var inSequence := probe.Feed(chunk[..drop]);
        if inSequence {
          tail := probe.Skip(tail);
        }
        tail := Align(tail);
        if tail != [] { ReplaceHead(tail); }
      } else if chunks != [] && size < sizeBefore {
        var aligned := Align(chunks[0]);
        if aligned != [] { ReplaceHead(aligned); }
      }
    }

    method PopHead() returns (state: State)
      requires Valid() && chunks != []
      modifies this
      ensures Valid() && View() == Pop(old(View())) && state == old(inside[0]) && tracker == old(tracker)
    {
      size := size - |chunks[0]|;
      state := inside[0];
      chunks, inside := chunks[1..], inside[1..];
    }

    method ReplaceHead(head: bytes)
      requires Valid() && chunks != []
      modifies this
      ensures Valid() && View() == SetHead(old(View()), head) && tracker == old(tracker)
    {
      size := size - (|chunks[0]| - |head|);
      chunks := [head] + chunks[1..];
    }

    /** The buffered chunks with the offset of their first byte. */
    method ChunksWithSeq() returns (out: seq<Piece>)
      ensures out == Numbered(chunks, Base(View()))
    {
      out := [];
      var at := endSeq - size;
      for i := 0 to |chunks|
        invariant out + Numbered(chunks[i..], at) == Numbered(chunks, endSeq - size)
      {
        out := out + [Piece(at, chunks[i])];
        at := at + |chunks[i]|;
        assert chunks[i..][1..] == chunks[i + 1..];
      }
    }

    method Since(last: int) returns (res: Option<seq<Piece>>)
      ensures res == Replay.Since(View(), last)
    {
      if last < 0 { return None; }
      if last > endSeq { return None; }
      if last < endSeq - size { return None; }
      var all := ChunksWithSeq();
      var out := [];
      for i := 0 to |all|
        invariant out + From(all[i..], last) == From(all, last)
      {
        var p := all[i];
        ghost var rest := From(all[i + 1..], last);
        assert all[i..][1..] == all[i + 1..];
        if last < p.at + |p.data| {
          var q := if p.at < last then Piece(last, p.data[last - p.at..]) else p;
          assert From(all[i..], last) == [q] + rest;
          assert out + ([q] + rest) == out + [q] + rest;
          out := out + [q];
        }
      }
      assert all[|all|..] == [] && out + [] == out;
      res := Some(out);
    }

    /** The buffer as wire frames of about `target` bytes. */
    method ReplayFramesWithSeq(target: int) returns (out: seq<Piece>)
      ensures out == ReplayFrames(View(), target)
    {
      hide Framed, Numbered, Flatten;
      var t := if target <= 0 then 1 else target;
      var buf: bytes := [];
      var at := endSeq - size;
      out := [];
      var all := ChunksWithSeq();
      NumberedLength(chunks, at);
      ghost var whole := ReplayFrames(View(), target);
      ghost var pos := at;
      assert chunks[0..] == chunks && all[0..] == all && buf + Flatten(chunks) == Flatten(chunks);
      for i := 0 to |all|
        invariant |buf| < t && (buf != [] ==> at + |buf| == pos)
        invariant all[i..] == Numbered(chunks[i..], pos)
        invariant out + Framed(pos - |buf|, buf + Flatten(chunks[i..]), t) == whole
      {
        ghost var rest := Flatten(chunks[i + 1..]);
        NextChunk(chunks, i, pos, all);
        assert buf + (chunks[i] + rest) == buf + chunks[i] + rest;
        if buf == [] { at := all[i].at; }
        pos := pos + |all[i].data|;
        out, at, buf := CutFrames(out, at, buf + all[i].data, t, rest);
      }
      LastFrame(pos - |buf|, buf, chunks[|all|..], t);
      if buf != [] { out := out + [Piece(at, buf)]; }
    }
  }

  lemma NextChunk(chunks: seq<bytes>, i: nat, pos: int, all: seq<Piece>)
    requires i < |chunks| == |all| && all[i..] == Numbered(chunks[i..], pos)
    ensures all[i] == Piece(pos, chunks[i])
    ensures all[i + 1..] == Numbered(chunks[i + 1..], pos + |chunks[i]|)
    ensures Flatten(chunks[i..]) == chunks[i] + Flatten(chunks[i + 1..])
  {
    assert chunks[i..][1..] == chunks[i + 1..];
    assert all[i] == all[i..][0] && all[i + 1..] == all[i..][1..];
  }

  lemma LastFrame(at: int, buf: bytes, chunks: seq<bytes>, t: nat)
    requires |buf| < t && chunks == []
    ensures Framed(at, buf + Flatten(chunks), t) == if buf == [] then [] else [Piece(at, buf)]
  {
    assert buf + [] == buf;
  }

  /** Moves full frames from the front of `buf` to `out`; `rest` is what is still to come. */
  method CutFrames(out: seq<Piece>, start: int, buf: bytes, target: nat, ghost rest: bytes)
    returns (frames: seq<Piece>, at: int, left: bytes)
    requires target > 0
    ensures |left| < target && at + |left| == start + |buf|
    ensures frames + Framed(at, left + rest, target) == out + Framed(start, buf + rest, target)
  {
    frames, at, left := out, start, buf;
    while |left| >= target
      invariant at + |left| == start + |buf|
      invariant frames + Framed(at, left + rest, target) == out + Framed(start, buf + rest, target)
      decreases |left|
    {
      assert (left + rest)[..target] == left[..target] && (left + rest)[target..] == left[target..] + rest;
      ghost var tail := Framed(at + target, left[target..] + rest, target);
      assert frames + ([Piece(at, left[..target])] + tail) == frames + [Piece(at, left[..target])] + tail;
      frames := frames + [Piece(at, left[..target])];
      at := at + target;
      left := left[target..];
    }
  }

  /** Drops the continuation bytes, at most three, at the head of `buf`. */
  method Align(buf: bytes) returns (aligned: bytes)
    ensures aligned == AlignUtf8(buf)
  {
    var index := 0;
    while index < |buf| && index < 3 && 0x80 <= buf[index] <= 0xBF
      invariant index <= |buf| && index <= 3
      invariant Orphans(buf, index) == Orphans(buf, 0)
    {
      index := index + 1;
    }
    aligned := buf[index..];
  }

  lemma {:induction false} NumberedLength(chunks: seq<bytes>, at: int)
    ensures |Numbered(chunks, at)| == |chunks|
  {
    if chunks != [] { NumberedLength(chunks[1..], at + |chunks[0]|); }
  }
}
