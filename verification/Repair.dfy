/**
  Repair: after any losses, a resynchronisation that loses nothing itself makes
  the viewer's screen exact again, if its cursor is not beyond the stream.
*/
module Repair {
  import opened Bytes
  import opened Ansi
  import opened Protocol
  import opened OutboundQueues
  import opened ClientSpec
  import opened ClientRuns
  import opened Fifo
  import opened RingSpec
  import opened Replay
  import opened SessionSpec
  import opened Lossless
  import opened Viewer
  import opened Resume
  import opened Fidelity
  import opened Reports

  // ---------------------------------------------------------------------
  // The repair in the line
  // ---------------------------------------------------------------------

  lemma {:induction false} FollowAppend(a: seq<Item>, b: seq<Item>, m: Mode, generation: int, stream: bytes)
    ensures Follow(a + b, m, generation, stream) ==
      match Follow(a, m, generation, stream)
      case None => None
      case Some(e) => Follow(b, e, generation, stream)
  {
    if a == [] {
      assert a + b == b;
    } else {
      assert (a + b)[1..] == a[1..] + b;
      match Move(m, a[0], generation, stream) {
        case None =>
        case Some(m1) => FollowAppend(a[1..], b, m1, generation, stream);
      }
    }
  }

  ghost predicate AllData(items: seq<Item>) {
    forall i :: 0 <= i < |items| ==> items[i].Data?
  }

  /** `d` is `c` with these frames more at the end of its line. */
  ghost predicate Joined(c: Client, d: Client, items: seq<Item>) {
    Attended(d) && AllData(items) && Waiting(d.q) == Waiting(c.q) + items && d.q.control == c.q.control
  }

  lemma FollowOne(x: Item, m: Mode, generation: int, stream: bytes)
    ensures Follow([x], m, generation, stream) == Move(m, x, generation, stream)
  {
    assert [x][1..] == [];
    hide Move;
    match Move(m, x, generation, stream) {
      case None =>
      case Some(m1) => assert Follow([], m1, generation, stream) == Some(m1);
    }
  }

  /** One replayed piece joins the line and takes the screen from its start to its end. */
  lemma PieceJoins(c: Client, x: Piece, generation: int, stream: bytes) returns (item: Item)
    requires Attended(c) && PutData(c, x.at, x.data, REPLAY).droppedBytes == c.droppedBytes
    requires 0 <= x.at && x.data != [] && x.at + |x.data| <= |stream| && x.data == stream[x.at..x.at + |x.data|]
    ensures Joined(c, PutData(c, x.at, x.data, REPLAY), [item])
    ensures forall m: Mode :: m == At(x.at) || m == Cleared(x.at) ==>
      Move(m, item, generation, stream) == Some(At(x.at + |x.data|))
  {
    hide PutData, Waiting, Ordered, Run;
    NoLossQueues(c, x.at, x.data, REPLAY);
    var d := PutData(c, x.at, x.data, REPLAY);
    QueuedJoins(c, d, x.at, x.data, REPLAY);
    var f: Frame :| Carries(f, x.at, x.data, REPLAY) && Waiting(d.q) == Waiting(c.q) + [Data(f)];
    item := Data(f);
  }

  /** The pieces of a replay join the line and take the screen from `p` to the end of the stream. */
  lemma {:induction false} PiecesJoin(c: Client, pieces: seq<Piece>, generation: int, stream: bytes, p: int)
      returns (items: seq<Item>)
    requires Attended(c) && Covers(pieces, stream, p, |stream|)
    requires PutPieces(c, pieces, REPLAY).droppedBytes == c.droppedBytes
    ensures Joined(c, PutPieces(c, pieces, REPLAY), items)
    ensures forall m: Mode :: m == At(p) || m == Cleared(p) ==> EndsAt(items, m, generation, stream, |stream|)
    decreases |pieces|
  {
    hide PutData, Attended, Move;
    if pieces == [] {
      items := [];
      assert Waiting(c.q) + [] == Waiting(c.q);
      assert forall m: Mode :: Follow([], m, generation, stream) == Some(m);
    } else {
      var x := pieces[0];
      var c1 := PutData(c, x.at, x.data, REPLAY);
      ConnectedVersion(c);
      PutDataCounts(c, x.at, x.data, REPLAY);
      PutDataIdentity(c, x.at, x.data, REPLAY);
      PiecesCount(c1, pieces[1..], REPLAY);
      var item := PieceJoins(c, x, generation, stream);
      var rest := PiecesJoin(c1, pieces[1..], generation, stream, p + |x.data|);
      items := [item] + rest;
      assert Waiting(c.q) + [item] + rest == Waiting(c.q) + items;
      assert items[0] == item && items[1..] == rest;
      var q := p + |x.data|;
      forall m: Mode | m == At(p) || m == Cleared(p) ensures EndsAt(items, m, generation, stream, |stream|) {
        assert Move(m, item, generation, stream) == Some(At(q));
        assert EndsAt(rest, At(q), generation, stream, |stream|);
        assert Follow(items, m, generation, stream) == Follow(rest, At(q), generation, stream);
      }
    }
  }

  /** The chunks of a snapshot join the line and take a stale screen to its anchor. */
  lemma {:induction false} ChunksJoin(c: Client, chunks: seq<bytes>, at: int, e: Mode, generation: int, stream: bytes)
      returns (items: seq<Item>)
    requires Attended(c) && chunks != [] && (forall i :: 0 <= i < |chunks| ==> |chunks[i]| > 0)
    requires (e.Stale? || e.Torn?) && e.p <= at <= |stream|
    ensures Joined(c, EnqueueChunks(c, chunks, at, SNAPSHOT), items)
    ensures Follow(items, e, generation, stream) == Some(At(at))
    decreases |chunks|
  {
    hide Waiting, Ordered;
    var f := if |chunks| == 1 then SNAPSHOT.(last := true) else SNAPSHOT;
    var c1 := Enqueue(c, chunks[0], false, Some(at), f);
    var x := Data(Frame(c.q.order + 1, chunks[0], false, Some(at), f));
    AddFrameKeepsOrder(c.q, chunks[0], false, Some(at), f);
    AddFrameIsEnqueue(c.q, chunks[0], false, Some(at), f);
    FollowOne(x, e, generation, stream);
    if |chunks| > 1 {
      var rest := ChunksJoin(c1, chunks[1..], at, Torn(e.p), generation, stream);
      items := [x] + rest;
      FollowAppend([x], rest, e, generation, stream);
      assert Waiting(c.q) + [x] + rest == Waiting(c.q) + items;
    } else {
      items := [x];
      assert EnqueueChunks(c1, chunks[1..], at, SNAPSHOT) == c1;
    }
  }

  lemma ShedForAttended(c: Client, size: int)
    requires Attended(c)
    ensures Attended(ShedFor(c, size))
  {
    hide Ordered, ShedLoop, Announce;
    ShedForOrdered(c, size);
    ShedForShape(c, size);
    ShedLoopEvicts(c, size, false);
    var d := ShedLoop(c, size, false).0;
    AnnounceShape(d.(droppedEvents := d.droppedEvents + 1));
  }

  /** The clear joins the line, whatever has to go for it. */
  lemma ClearJoins(c: Client, at: int) returns (x: Item)
    requires Attended(c) && Fits(c, CLEAR)
    ensures var d := PutData(c, at, CLEAR, DISPLAY);
      Attended(d) && exists pre :: Waiting(d.q) == pre + [x]
    ensures x.Data? && x.frame.at != None && x.frame.flags == DISPLAY && x.frame.payload == CLEAR
  {
    hide ShedFor, Waiting, Ordered, Run;
    var c0 := c.(tracker := Run(c.tracker, CLEAR));
    ShedForAttended(c0, |CLEAR|);
    var c1 := ShedFor(c0, |CLEAR|);
    var inside := Run(c.tracker, CLEAR) != Outside;
    AddFrameKeepsOrder(c1.q, CLEAR, inside, Some(at), DISPLAY);
    AddFrameIsEnqueue(c1.q, CLEAR, inside, Some(at), DISPLAY);
    x := Data(Frame(c1.q.order + 1, CLEAR, inside, Some(at), DISPLAY));
    assert Waiting(PutData(c, at, CLEAR, DISPLAY).q) == Waiting(c1.q) + [x];
  }

  /** A snapshot is queued whole, whatever has to go for it, or refused. */
  lemma OfferJoins(c: Client, end: int, snap: Option<bytes>, base: int, generation: int, stream: bytes)
      returns (items: seq<Item>)
    requires Attended(c) && 0 <= base <= end <= |stream|
    ensures var (d, applied) := OfferSnapshot(c, end, snap);
      Attended(d) && (applied ==> AllData(items) && (exists pre :: Waiting(d.q) == pre + items)
                                  && Follow(items, Stale(base), generation, stream) == Some(At(end)))
  {
    hide ShedFor, Waiting, Ordered, Split, EnqueueChunks, Announce;
    items := [];
    if HasScreen(snap) {
      ShedForAttended(c, |snap.value|);
      var c1 := ShedFor(c, |snap.value|);
      if SnapshotFits(c1, snap.value) {
        SplitIsWhole(snap.value);
        SplitNonEmpty(snap.value);
        var c2 := c1.(pending := c1.pending + |snap.value|);
        items := ChunksJoin(c2, Split(snap.value), end, Stale(base), generation, stream);
        assert Waiting(OfferSnapshot(c, end, snap).0.q) == Waiting(c2.q) + items;
      } else {
        ShedForCounts(c, |snap.value|);
        RoomCountsUp(c, |snap.value|);
      }
    }
  }

  /** The repair itself loses nothing: a snapshot is taken, or the clear and the whole replay are. */
  ghost predicate Complete(c: Client, r: Ring, last: Option<int>, snap: Option<bytes>) {
    var (c1, applied) := OfferSnapshot(c, r.endSeq, snap);
    && !Resync(c, r, last, snap).1
    && (applied || (Fits(c1, CLEAR)
                    && Resync(c, r, last, snap).0.droppedBytes == PutData(c1, r.endSeq, CLEAR, DISPLAY).droppedBytes))
  }

  /** A complete repair ends the line, and takes the screen from anywhere to the end of the stream. */
  lemma ResyncJoins(c: Client, r: Ring, stream: bytes, generation: int, last: Option<int>, snap: Option<bytes>)
      returns (pre: seq<Item>, post: seq<Item>)
    requires Attended(c) && Tracks(r, stream, 0) && Complete(c, r, last, snap)
    ensures var d := Resync(c, r, last, snap).0;
      && Attended(d) && AllData(post) && Waiting(d.q) == pre + post
      && EndsAt(post, Stale(Base(r)), generation, stream, |stream|)
  {
    hide PutData, OfferSnapshot, Ordered, Waiting, ReplayFrames, Follow;
    var items := OfferJoins(c, r.endSeq, snap, Base(r), generation, stream);
    var (c1, applied) := OfferSnapshot(c, r.endSeq, snap);
    if applied {
      pre :| Waiting(c1.q) == pre + items;
      post := items;
    } else {
      var x := ClearJoins(c1, r.endSeq);
      var c2 := PutData(c1, r.endSeq, CLEAR, DISPLAY);
      pre :| Waiting(c2.q) == pre + [x];
      ReplayIsWhole(r, stream, 0, ReplayTarget(c1.maxBytes));
      var pieces := ReplayFrames(r, ReplayTarget(c1.maxBytes));
      items := PiecesJoin(c2, pieces, generation, stream, Base(r));
      post := [x] + items;
      assert pre + [x] + items == pre + post;
      FollowOne(x, Stale(Base(r)), generation, stream);
      FollowAppend([x], items, Stale(Base(r)), generation, stream);
      assert EndsAt(items, Cleared(Base(r)), generation, stream, |stream|);
    }
  }

  // ---------------------------------------------------------------------
  // The viewer while it is repaired
  // ---------------------------------------------------------------------

  /** What the mode says of the screen; the cursor and the repair flag may be anything. */
  ghost predicate ScreenIn(v: Cli, m: Mode, stream: bytes) {
    var t := Screen(v.painted);
    match m
    case At(p) => |t| <= p <= |stream| && t == stream[p - |t|..p] && !HalfPainted(v.painted)
    case Cleared(p) => 0 <= p <= |stream| && t == [] && !HalfPainted(v.painted)
    case Stale(p) => 0 <= p <= |stream|
    case Torn(p) => 0 <= p <= |stream|
  }

  /** What painting one frame does to the screen, whatever is awaited. */
  lemma PaintScreen(v: Cli, f: Frame)
    requires f.at != None
    ensures
      var v1 := OnFrame(v, Decoded(f));
      var stream := !f.flags.display && !f.flags.snapshot;
      var repaint := !f.flags.display && f.flags.snapshot && f.flags.last;
      && Screen(v1.painted) == (if repaint || (f.flags.display && f.payload == CLEAR) then []
                                else if stream then Screen(v.painted) + f.payload else Screen(v.painted))
      && HalfPainted(v1.painted) == (if repaint || (f.flags.display && f.payload == CLEAR) then false
                                     else (!f.flags.display && f.flags.snapshot) || HalfPainted(v.painted))
  {
    var d := Decoded(f);
    assert FlagsOf(d.flags) == f.flags;
    PaintOne(v.painted, d);
    assert OnFrame(v, d).painted == v.painted + [d];
    hide FlagBits, FlagsOf, Screen, HalfPainted, OnFrame;
  }

  lemma FrameMovesScreen(v: Cli, m: Mode, f: Frame, generation: int, stream: bytes)
    requires ScreenIn(v, m, stream) && Move(m, Data(f), generation, stream) != None
    ensures f.at != None && ScreenIn(OnFrame(v, Decoded(f)), Move(m, Data(f), generation, stream).value, stream)
  {
    hide Screen, HalfPainted, OnFrame, FlagBits, FlagsOf;
    PaintScreen(v, f);
    var t := Screen(v.painted);
    if !f.flags.display && !f.flags.snapshot {
      assert stream[m.p - |t|..m.p] + f.payload == stream[m.p - |t|..m.p + |f.payload|];
    }
  }

  lemma TextKeepsScreen(v: Cli, msg: Msg)
    ensures OnControl(v, msg).painted == v.painted
  {
  }

  lemma ScreenLonger(v: Cli, m: Mode, stream: bytes, more: bytes)
    requires ScreenIn(v, m, stream)
    ensures ScreenIn(v, m, stream + more)
  {
    hide Screen, HalfPainted;
    if m.At? {
      var t := Screen(v.painted);
      assert (stream + more)[m.p - |t|..m.p] == stream[m.p - |t|..m.p];
    }
  }

  /**
    `n` items that may do anything stand in line before a repair, `k` items
    before the message that it is complete; the repair takes the screen from `m`
    to `at`, and what stands behind it goes on from there to the end of the stream.
  */
  ghost predicate RepairInLine(items: seq<Item>, n: nat, k: nat, m: Mode, at: int, generation: int, stream: bytes) {
    && n <= k < |items|
    && 0 <= at <= |stream|
    && EndsAt(items[n..k], m, generation, stream, at)
    && items[k].Text? && items[k].control.msg == Resynced(at, false)
    && EndsAt(items[k + 1..], At(at), generation, stream, |stream|)
  }

  ghost predicate RingKept(w: World) {
    Tracks(w.ring, w.stream, 0) && SafeHead(w.ring, w.stream, 0) && WithinBudget(w.ring)
        && w.ring.maxBytes == w.maxBytes
  }

  ghost predicate Mending(w: World, n: nat, k: nat, m: Mode, at: int) {
    && RingKept(w)
    && w.conn != None && Attended(w.conn.value)
    && RepairInLine(Waiting(w.conn.value.q), n, k, m, at, w.generation, w.stream)
    && (n == 0 ==> ScreenIn(w.cli, m, w.stream))
    && (n > 0 ==> m.Stale? && 0 <= m.p <= |w.stream|)
  }

  /** One more item at the end of the line. */
  lemma LineGrows(items: seq<Item>, x: Item, n: nat, k: nat, m: Mode, at: int, generation: int, stream: bytes)
    requires RepairInLine(items, n, k, m, at, generation, stream)
    requires forall e: Mode :: e == At(|stream|) || e == Cleared(|stream|) ==>
      Move(e, x, generation, stream) == Some(At(|stream|)) || Move(e, x, generation, stream) == Some(Cleared(|stream|))
    ensures RepairInLine(items + [x], n, k, m, at, generation, stream)
  {
    assert (items + [x])[n..k] == items[n..k];
    assert (items + [x])[k + 1..] == items[k + 1..] + [x];
    FollowSnoc(items[k + 1..], x, At(at), generation, stream);
  }

  lemma LineLonger(items: seq<Item>, x: Item, n: nat, k: nat, m: Mode, at: int, generation: int, stream: bytes,
      data: bytes)
    requires RepairInLine(items, n, k, m, at, generation, stream)
    requires forall e: Mode :: e == At(|stream|) || e == Cleared(|stream|) ==>
      Move(e, x, generation, stream + data) == Some(At(|stream| + |data|))
    ensures RepairInLine(items + [x], n, k, m, at, generation, stream + data)
  {
    assert (items + [x])[n..k] == items[n..k];
    assert (items + [x])[k + 1..] == items[k + 1..] + [x];
    FollowLonger(items[n..k], m, generation, stream, data);
    FollowLonger(items[k + 1..], At(at), generation, stream, data);
    FollowSnoc(items[k + 1..], x, At(at), generation, stream + data);
  }

  lemma MendEmit(w: World, n: nat, k: nat, m: Mode, at: int, data: bytes)
    requires Mending(w, n, k, m, at) && w.maxBytes > 0 && data != [] && NoLoss(w) && NoLoss(Step1(w, Emit(data)))
    ensures Mending(Step1(w, Emit(data)), n, k, m, at)
  {
    hide PutData, Append, Waiting, Ordered, SafeHead, WithinBudget, Run;
    var c, at1 := w.conn.value, |w.stream|;
    AppendKeeps(w.ring, w.stream, 0, data);
    NoLossQueues(c, at1, data, LIVE);
    var d := PutData(c, at1, data, LIVE);
    QueuedJoins(c, d, at1, data, LIVE);
    var f: Frame :| Carries(f, at1, data, LIVE) && Waiting(d.q) == Waiting(c.q) + [Data(f)];
    assert (w.stream + data)[at1..at1 + |data|] == data;
    LineLonger(Waiting(c.q), Data(f), n, k, m, at, w.generation, w.stream, data);
    if n == 0 { ScreenLonger(w.cli, m, w.stream, data); }
  }

  lemma MendMuted(w: World, n: nat, k: nat, m: Mode, at: int, data: bytes)
    requires Mending(w, n, k, m, at) && data != [] && NoLoss(w) && NoLoss(Step1(w, EmitMuted(data)))
    ensures Mending(Step1(w, EmitMuted(data)), n, k, m, at)
  {
    hide PutData, Waiting, Ordered, SafeHead, WithinBudget, Run, Screen, HalfPainted;
    var c, at1 := w.conn.value, |w.stream|;
    NoLossQueues(c, at1, data, DISPLAY);
    var d := PutData(c, at1, data, DISPLAY);
    QueuedJoins(c, d, at1, data, DISPLAY);
    var f: Frame :| Carries(f, at1, data, DISPLAY) && Waiting(d.q) == Waiting(c.q) + [Data(f)];
    LineGrows(Waiting(c.q), Data(f), n, k, m, at, w.generation, w.stream);
  }

  /** The head of the line goes: an item before the repair, or one of it. */
  lemma LineShrinks(items: seq<Item>, n: nat, k: nat, m: Mode, at: int, generation: int, stream: bytes)
      returns (m1: Mode)
    requires RepairInLine(items, n, k, m, at, generation, stream) && k > 0
    ensures n > 0 ==> m1 == m
    ensures n == 0 ==> Move(m, items[0], generation, stream) == Some(m1)
    ensures RepairInLine(items[1..], if n > 0 then n - 1 else 0, k - 1, m1, at, generation, stream)
  {
    assert items[1..][k..] == items[k + 1..] && items[1..][k - 1] == items[k];
    if n > 0 {
      m1 := m;
      assert items[1..][n - 1..k - 1] == items[n..k];
    } else {
      assert items[0..k][0] == items[0] && items[0..k][1..] == items[1..][0..k - 1];
      m1 := Move(m, items[0], generation, stream).value;
    }
  }

  /** The viewer receives one item: its screen moves with the mode. */
  lemma ItemMovesScreen(v: Cli, m: Mode, item: Item, generation: int, stream: bytes)
    requires ScreenIn(v, m, stream) && Move(m, item, generation, stream) != None && ToWire(item) != None
    ensures ScreenIn(Receive(v, ToWire(item).value), Move(m, item, generation, stream).value, stream)
  {
    hide ScreenIn, ToWire, Receive, OnFrame, OnControl;
    match item {
      case Data(f) =>
        FrameMovesScreen(v, m, f, generation, stream);
        WireIsTransparent(f, v);
      case Text(x) =>
        ReceivesControl(x, v);
        TextMovesScreen(v, m, x, generation, stream);
    }
  }

  lemma TextMovesScreen(v: Cli, m: Mode, x: Control, generation: int, stream: bytes)
    requires ScreenIn(v, m, stream) && Move(m, Text(x), generation, stream) != None
    ensures ScreenIn(OnControl(v, x.msg), Move(m, Text(x), generation, stream).value, stream)
  {
    hide Screen, HalfPainted;
    TextKeepsScreen(v, x.msg);
    hide OnControl;
  }

  /** One delivery: the head of the line reaches the viewer, and the rest stays. */
  lemma DeliverShape(w: World)
    requires Shaped(w.ring) && w.conn != None && Attended(w.conn.value) && HasItems(w.conn.value.q)
    requires SendNext(w.conn.value).1 != None
    ensures var w1, items := Step1(w, Deliver), Waiting(w.conn.value.q);
      && items != [] && ToWire(items[0]) != None
      && w1 == w.(conn := w1.conn, cli := Receive(w.cli, ToWire(items[0]).value))
      && w1.conn != None && Attended(w1.conn.value) && Waiting(w1.conn.value.q) == items[1..]
  {
    hide Ordered, ToWire, Receive;
    var c := w.conn.value;
    TakeIsDequeue(c.q);
    assert NoneEmpty(Take(c.q).binary);
    hide Waiting;
    assert Waiting(c.q)[0] == Next(c.q) && Waiting(c.q)[1..] == Waiting(Take(c.q));
  }

  lemma MendDeliver(w: World, n: nat, k: nat, m: Mode, at: int) returns (m1: Mode)
    requires Mending(w, n, k, m, at) && k > 0 && HasItems(w.conn.value.q) && SendNext(w.conn.value).1 != None
    ensures Mending(Step1(w, Deliver), if n > 0 then n - 1 else 0, k - 1, m1, at)
  {
    assert Shaped(w.ring);
    hide Attended, RingKept, ToWire, Receive, ScreenIn, Move, RepairInLine, Step1, Waiting, SendNext;
    var items := Waiting(w.conn.value.q);
    DeliverShape(w);
    m1 := LineShrinks(items, n, k, m, at, w.generation, w.stream);
    if n == 0 {
      ItemMovesScreen(w.cli, m, items[0], w.generation, w.stream);
    } else if n == 1 {
      AnyScreen(Step1(w, Deliver).cli, m, w.stream);
    }
  }

  lemma AnyScreen(v: Cli, m: Mode, stream: bytes)
    requires m.Stale? && 0 <= m.p <= |stream|
    ensures ScreenIn(v, m, stream)
  {
  }

  lemma LineHasItems(q: Queues, n: nat, k: nat, m: Mode, at: int, generation: int, stream: bytes)
    requires RepairInLine(Waiting(q), n, k, m, at, generation, stream)
    ensures HasItems(q)
  {
  }

  // ---------------------------------------------------------------------
  // After the repair
  // ---------------------------------------------------------------------

  /** The cursor of a viewer of this generation is not beyond the repair. */
  predicate CursorBehind(v: Cli, generation: int, at: int) {
    v.generation == Some(generation) && v.lastSeq != None ==> v.lastSeq.value <= at
  }

  /** The message that ends a repair makes the viewer exact exactly when its cursor is not beyond the repair. */
  lemma CursorSettles(v: Cli, m: Mode, generation: int, stream: bytes, base: int, at: int)
    requires ScreenIn(v, m, stream) && (m == At(at) || m == Cleared(at))
    ensures var v1 := OnControl(v, Resynced(at, false));
      && (CursorBehind(v, generation, at) ==>
            Exact(v1, generation, stream, base) && InMode(v1, At(at), generation, stream, base))
      && (!CursorBehind(v, generation, at) ==> !InMode(v1, At(at), generation, stream, base))
  {
    hide Screen, HalfPainted;
  }

  lemma Settles(w: World, m: Mode, at: int)
    requires Mending(w, 0, 0, m, at) && HasItems(w.conn.value.q) && SendNext(w.conn.value).1 != None
    requires w.cli.generation != None ==> w.cli.generation.value <= w.generation
    ensures Inv(Step1(w, Deliver), At(at)) <==> CursorBehind(w.cli, w.generation, at)
  {
    assert Shaped(w.ring);
    var c, items := w.conn.value, Waiting(w.conn.value.q);
    assert items[0..0] == [] && items[0 + 1..] == items[1..];
    assert m == At(at) || m == Cleared(at);
    LineHasItems(c.q, 0, 0, m, at, w.generation, w.stream);
    hide Attended, Tracks, SafeHead, WithinBudget, ToWire, Receive, ScreenIn, Move, InMode, Exact, OnControl, Step1,
        Waiting, SendNext;
    DeliverShape(w);
    ReceivesControl(items[0].control, w.cli);
    CursorSettles(w.cli, m, w.generation, w.stream, Base(w.ring), at);
    GenerationStays(w.cli, at);
  }

  lemma GenerationStays(v: Cli, at: int)
    ensures OnControl(v, Resynced(at, false)).generation == v.generation
  {
  }

  /** Output and deliveries on one connection, without losses. */
  ghost predicate QuietRun(w: World, steps: seq<Step>)
    requires Shaped(w.ring)
  {
    && NoLoss(Play(w, steps)) && Play(w, steps).conn != None
    && (steps == [] || (QuietRun(w, steps[..|steps| - 1])
                        && var s := steps[|steps| - 1]; s.Emit? || s.EmitMuted? || s.Deliver?))
  }

  function Deliveries(steps: seq<Step>): nat {
    if steps == [] then 0 else Deliveries(steps[..|steps| - 1]) + if steps[|steps| - 1].Deliver? then 1 else 0
  }

  lemma MendStep(w: World, n: nat, k: nat, m: Mode, at: int, step: Step) returns (n1: nat, m1: Mode)
    requires Mending(w, n, k, m, at) && w.maxBytes > 0 && (step.Emit? || step.EmitMuted? || step.Deliver?)
    requires NoLoss(w) && NoLoss(Step1(w, step)) && Step1(w, step).conn != None && (step.Deliver? ==> k > 0)
    ensures Mending(Step1(w, step), n1, if step.Deliver? then k - 1 else k, m1, at)
  {
    n1, m1 := n, m;
    match step {
      case Emit(data) =>
        hide Mending;
        if data != [] { MendEmit(w, n, k, m, at, data); }
      case EmitMuted(data) =>
        hide Mending;
        if data != [] { MendMuted(w, n, k, m, at, data); }
      case Deliver =>
        LineHasItems(w.conn.value.q, n, k, m, at, w.generation, w.stream);
        DeliveredKeepsConn(w);
        hide Mending;
        m1 := MendDeliver(w, n, k, m, at);
        n1 := if n > 0 then n - 1 else 0;
      case _ =>
    }
  }

  lemma DeliveredKeepsConn(w: World)
    requires Shaped(w.ring) && w.conn != None && HasItems(w.conn.value.q) && Step1(w, Deliver).conn != None
    ensures SendNext(w.conn.value).1 != None
  {
    hide SendNext;
  }

  lemma {:induction false} MendRun(w: World, n: nat, k: nat, m: Mode, at: int, steps: seq<Step>)
      returns (n1: nat, m1: Mode)
    requires Shaped(w.ring) && w.maxBytes > 0
    requires Mending(w, n, k, m, at) && QuietRun(w, steps) && Deliveries(steps) <= k
    ensures Mending(Play(w, steps), n1, k - Deliveries(steps), m1, at) && Play(w, steps).maxBytes == w.maxBytes
    decreases |steps|
  {
    hide Step1, Mending, NoLoss;
    if steps == [] {
      n1, m1 := n, m;
    } else {
      var before, step := steps[..|steps| - 1], steps[|steps| - 1];
      assert QuietRun(w, before) && Deliveries(steps) == Deliveries(before) + if step.Deliver? then 1 else 0;
      n1, m1 := MendRun(w, n, k, m, at, before);
      QuietHere(w, before);
      QuietHere(w, steps);
      assert Play(w, steps) == Step1(Play(w, before), step);
      hide QuietRun, Deliveries, Play;
      StepBudget(Play(w, before), step);
      n1, m1 := MendStep(Play(w, before), n1, k - Deliveries(before), m1, at, step);
    }
  }

  lemma QuietHere(w: World, steps: seq<Step>)
    requires Shaped(w.ring) && QuietRun(w, steps)
    ensures NoLoss(Play(w, steps)) && Play(w, steps).conn != None
  {
  }

  /**
    The repair is reported complete, and the report can be trusted: the clear
    fits the budget, and no put of the replay evicts anything unreported.
  */
  ghost predicate Trusted(c: Client, r: Ring, last: Option<int>, snap: Option<bytes>) {
    && !Resync(c, r, last, snap).1
    && (OfferSnapshot(c, r.endSeq, snap).1
        || (Fits(c, CLEAR) && Unseen(LineOf(ClearedLine(c, r, snap)), RepairPieces(c, r, snap)) == 0))
  }

  /** That is to say that nothing of it was lost. */
  lemma TrustedIsComplete(c: Client, r: Ring, last: Option<int>, snap: Option<bytes>)
    requires Proper(c)
    ensures Trusted(c, r, last, snap) <==> Complete(c, r, last, snap)
  {
    hide Proper, PutData, Resync, OfferSnapshot, Unseen, Unreported, LineOf;
    ProperVersion(c);
    OfferIdentity(c, r.endSeq, snap);
    if !OfferSnapshot(c, r.endSeq, snap).1 { ResyncFlag(c, r, last, snap); }
  }

  /** A world after any losses: its ring is kept, its line is in order. */
  ghost predicate Repairable(w: World, last: Option<int>, snap: Option<bytes>) {
    && RingKept(w) && w.maxBytes > 0
    && w.conn != None && Attended(w.conn.value) && Proper(w.conn.value)
    && Trusted(w.conn.value, w.ring, last, snap)
  }

  lemma {:induction false} TextInLine(binary: seq<Frame>, control: seq<Control>)
    requires control != []
    ensures exists i :: 0 <= i < |Merge(binary, control)| && Merge(binary, control)[i].Text?
    decreases |binary|
  {
    var items := Merge(binary, control);
    if binary != [] && binary[0].order < control[0].order {
      TextInLine(binary[1..], control);
      var rest := Merge(binary[1..], control);
      var i :| 0 <= i < |rest| && rest[i].Text?;
      assert items == [Data(binary[0])] + rest;
      assert items[i + 1].Text?;
    } else {
      assert items[0].Text?;
    }
  }

  lemma TextIsBefore(pre: seq<Item>, post: seq<Item>, i: nat)
    requires AllData(post) && i < |pre + post| && (pre + post)[i].Text?
    ensures i < |pre| && pre[i].Text?
  {
    assert forall k :: |pre| <= k < |pre + post| ==> (pre + post)[k] == post[k - |pre|];
    assert forall k :: 0 <= k < |pre| ==> (pre + post)[k] == pre[k];
  }

  lemma {:induction false} TextGoesBefore(pre: seq<Item>, post: seq<Item>)
    requires exists i :: 0 <= i < |pre| && pre[i].Text?
    ensures WithoutFirstText(pre + post) == WithoutFirstText(pre) + post
  {
    var i :| 0 <= i < |pre| && pre[i].Text?;
    assert (pre + post)[1..] == pre[1..] + post;
    if pre[0].Data? {
      assert pre[1..][i - 1].Text?;
      TextGoesBefore(pre[1..], post);
    }
  }

  /** A message joins the line behind a repair; when there are too many, one before the repair leaves it. */
  lemma MessageJoins(c: Client, msg: Msg, pre: seq<Item>, post: seq<Item>) returns (before: seq<Item>, x: Item)
    requires Attended(c) && Waiting(c.q) == pre + post && AllData(post)
    ensures x.Text? && x.control.msg == msg
    ensures Attended(PutControl(c, msg)) && Waiting(PutControl(c, msg).q) == before + post + [x]
  {
    hide Ordered;
    AddControlKeepsOrder(c.q, msg);
    AddControlIsEnqueue(c.q, msg);
    x := Text(Control(c.q.order + 1, msg));
    before := pre;
    if |c.q.control| == MAX_CONTROL_PENDING {
      TextInLine(c.q.binary, c.q.control);
      var i :| 0 <= i < |pre + post| && (pre + post)[i].Text?;
      TextIsBefore(pre, post, i);
      TextGoesBefore(pre, post);
      before := WithoutFirstText(pre);
    }
  }

  lemma LineWithRepair(pre: seq<Item>, post: seq<Item>, x: Item, base: int, generation: int, stream: bytes)
    requires EndsAt(post, Stale(base), generation, stream, |stream|)
    requires x.Text? && x.control.msg == Resynced(|stream|, false)
    ensures RepairInLine(pre + post + [x], |pre|, |pre| + |post|, Stale(base), |stream|, generation, stream)
  {
    var items := pre + post + [x];
    assert items[|pre|..|pre| + |post|] == post && items[|pre| + |post| + 1..] == [];
    hide Move;
    FollowNothing(At(|stream|), generation, stream);
  }

  lemma ResyncMends(w: World, last: Option<int>, snap: Option<bytes>) returns (n: nat, m: Mode)
    requires Repairable(w, last, snap)
    ensures var w1 := Resynchronise(w, last, snap);
      && NoLoss(w1) && |Waiting(w1.conn.value.q)| > 0
      && Mending(w1, n, |Waiting(w1.conn.value.q)| - 1, m, |w.stream|)
  {
    TracksBase(w.ring, w.stream);
    var (d, incomplete) := Resync(w.conn.value, w.ring, last, snap);
    assert !incomplete && w.ring.endSeq == |w.stream|;
    TrustedIsComplete(w.conn.value, w.ring, last, snap);
    hide Waiting, Resync, RingKept, Tracks, Complete, Trusted, RepairInLine;
    var pre, post := ResyncJoins(w.conn.value, w.ring, w.stream, w.generation, last, snap);
    var before, x := MessageJoins(d, Resynced(w.ring.endSeq, false), pre, post);
    n, m := |before|, Stale(Base(w.ring));
    LineWithRepair(before, post, x, Base(w.ring), w.generation, w.stream);
    AnyScreen(w.cli, m, w.stream);
  }

  lemma FollowNothing(m: Mode, generation: int, stream: bytes)
    ensures Follow([], m, generation, stream) == Some(m)
  {
  }

  /** The message that ends a repair restores the invariant exactly when the cursor is not beyond it. */
  lemma RepairDelivered(w: World, n: nat, k: nat, m: Mode, at: int, quiet: seq<Step>)
    requires Shaped(w.ring) && w.maxBytes > 0
    requires Mending(w, n, k, m, at) && QuietRun(w, quiet) && Deliveries(quiet) == k
    requires var u := Play(w, quiet);
      Step1(u, Deliver).conn != None && (u.cli.generation != None ==> u.cli.generation.value <= u.generation)
    ensures var u := Play(w, quiet);
      && Step1(u, Deliver).maxBytes > 0
      && (Inv(Step1(u, Deliver), At(at)) <==> CursorBehind(u.cli, u.generation, at))
  {
    hide Mending, CursorBehind, SendNext, Inv, Step1, Play, QuietRun, Deliveries;
    var n1, m1 := MendRun(w, n, k, m, at, quiet);
    var u := Play(w, quiet);
    NoneBefore(u, n1, m1, at);
    DeliveredKeepsConn(u);
    Settles(u, m1, at);
    StepBudget(u, Deliver);
  }

  lemma NoneBefore(u: World, n: nat, m: Mode, at: int)
    requires Mending(u, n, 0, m, at)
    ensures n == 0 && u.conn != None && HasItems(u.conn.value.q)
  {
    hide Attended, Tracks, SafeHead, WithinBudget, Follow;
    LineHasItems(u.conn.value.q, n, 0, m, at, u.generation, u.stream);
  }

  /** What `ExactResume` promises. */
  ghost predicate IsExact(w: World) {
    w.cli.generation == Some(w.generation) ==>
      && w.cli.lastSeq != None
      && var n, text := w.cli.lastSeq.value, Screen(w.cli.painted);
         |text| <= n <= |w.stream| && text == w.stream[n - |text|..n]
  }

  lemma InvIsExact(w: World, m: Mode)
    requires Inv(w, m)
    ensures IsExact(w)
  {
    hide Linked, Tracks, SafeHead, WithinBudget, Screen, HalfPainted;
  }

  lemma RepairableRing(w: World, last: Option<int>, snap: Option<bytes>)
    requires Repairable(w, last, snap)
    ensures Shaped(w.ring) && w.maxBytes > 0 && w.conn != None
  {
  }

  /**
    Once a complete repair has been delivered, with nothing lost since it was
    queued and a cursor not beyond it, the viewer is exact again, and stays so
    over every run without losses, whatever that run is.
  */
  lemma RepairHolds(w: World, last: Option<int>, snap: Option<bytes>, quiet: seq<Step>, onwards: seq<Step>)
    requires Repairable(w, last, snap)
    requires QuietRun(Resynchronise(w, last, snap), quiet)
    requires Deliveries(quiet) == |Waiting(Resynchronise(w, last, snap).conn.value.q)| - 1
    requires var u := Play(Resynchronise(w, last, snap), quiet);
      && Step1(u, Deliver).conn != None
      && (u.cli.generation != None ==> u.cli.generation.value <= u.generation)
      && CursorBehind(u.cli, u.generation, |w.stream|)
      && LosslessRun(Step1(u, Deliver), onwards)
    ensures IsExact(Play(Step1(Play(Resynchronise(w, last, snap), quiet), Deliver), onwards))
  {
    hide *;
    RepairableRing(w, last, snap);
    var w1 := Resynchronise(w, last, snap);
    var n, m := ResyncMends(w, last, snap);
    RepairDelivered(w1, n, |Waiting(w1.conn.value.q)| - 1, m, |w.stream|, quiet);
    var m1 := Onwards(Step1(Play(w1, quiet), Deliver), At(|w.stream|), onwards);
    InvIsExact(Play(Step1(Play(w1, quiet), Deliver), onwards), m1);
  }
}
