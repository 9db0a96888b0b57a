/**
  Exact resume: a session's stream, one command-line viewer, and the connection
  between them, over every run of output, attach, delivery, disconnection,
  reconnection and restart.
*/
module Resume {
  import opened Bytes
  import opened Ansi
  import opened Protocol
  import opened OutboundQueues
  import opened ClientSpec
  import opened ClientRuns
  import opened Fifo
  import opened RingSpec
  import opened Replay
  import opened SessionSpec
  import opened Lossless
  import opened Viewer

  // ---------------------------------------------------------------------
  // The system
  // ---------------------------------------------------------------------

  /**
    `generation` numbers the incarnations of the session; `stream` is the whole
    output of the current one.  `refused` counts the bytes of a snapshot that
    the connection's bounds refused, which is not a loss of the stream.
  */
  datatype World = World(
    maxBytes: int,
    generation: int,
    stream: bytes,
    ring: Ring,
    conn: Option<Client>,
    refused: int,
    cli: Cli)

  datatype Step =
    | Emit(data: bytes)
    | EmitMuted(data: bytes)
    | Connect(maxPending: int, budget: int, snap: Option<bytes>)
    | Deliver
    | Disconnect
    | Restart
    | Notify(tag: int)

  function Begin(maxBytes: int): World {
    World(maxBytes, 0, [], Empty(maxBytes), None, 0, START)
  }

  function Broadcast(conn: Option<Client>, at: int, data: bytes, flags: Flags): Option<Client> {
    match conn
    case None => None
    case Some(c) => Some(PutData(c, at, data, flags))
  }

  function RefusedBytes(c: Client, r: Ring, generation: int, v: Cli, snap: Option<bytes>): int {
    if !ResumeOk(r, generation, AttachSeq(v), v.generation) && HasScreen(snap) && !OfferSnapshot(c, r.endSeq, snap).1
    then |snap.value| else 0
  }

  function Receive(v: Cli, w: Wire): Cli {
    match w
    case Binary(data) => OnBytes(v, data)
    case Json(msg) => OnControl(v, msg)
  }

  /** A frame that cannot be encoded ends the connection, like any other failure of the writer. */
  function Step1(w: World, step: Step): (w': World)
    requires Shaped(w.ring)
    ensures Shaped(w'.ring)
  {
    match step
    case Emit(data) =>
      if data == [] then w
      else w.(stream := w.stream
          + data, ring := Append(w.ring, data), conn := Broadcast(w.conn, w.ring.endSeq, data, LIVE))
    case EmitMuted(data) =>
      if data == [] then w else w.(conn := Broadcast(w.conn, w.ring.endSeq, data, DISPLAY))
    case Connect(maxPending, budget, snap) =>
      if w.conn != None then w
      else
        var c := Fresh(2, maxPending, budget);
        w.(conn := Some(AttachV2(c, w.ring, w.generation, AttachSeq(w.cli), w.cli.generation, snap)),
           refused := RefusedBytes(c, w.ring, w.generation, w.cli, snap),
           cli := Connected(w.cli))
    case Deliver =>
      if w.conn == None || !HasItems(w.conn.value.q) then w
      else
        var (c, wire) := SendNext(w.conn.value);
        (match wire
         case None => w.(conn := None)
         case Some(m) => w.(conn := Some(c), cli := Receive(w.cli, m)))
    case Disconnect => w.(conn := None)
    case Restart =>
      w.(generation := w.generation + 1, stream := [], ring := Empty(w.maxBytes), conn := None)
    case Notify(tag) =>
      if w.conn == None then w else w.(conn := Some(PutControl(w.conn.value, Notice(tag))))
  }

  /** No frame was evicted or turned away on the current connection. */
  predicate NoLoss(w: World) {
    w.conn != None ==> w.conn.value.droppedBytes == w.refused
  }

  // ---------------------------------------------------------------------
  // Where the viewer stands, and what the line will do to it
  // ---------------------------------------------------------------------

  /**
    `At(p)`: the screen continues to offset `p`.  `Cleared(p)`: it has just been
    cleared and continues at `p`.  `Stale(p)`: its content is to be replaced from
    `p` on.  `Torn(p)`: the same, with a snapshot half painted.
  */
  datatype Mode = At(p: int) | Cleared(p: int) | Stale(p: int) | Torn(p: int)

  /** What one item does; `None` if it must not come here. */
  ghost function Move(m: Mode, item: Item, generation: int, stream: bytes): Option<Mode> {
    match item
    case Text(c) =>
      (match c.msg
       case Attached(g, end, _, _, _, incomplete) =>
         if g == generation && !incomplete && (m == At(end) || m == Cleared(end)) then Some(At(end)) else None
       case Notice(_) => Some(m)
       case _ => None)
    case Data(f) =>
      if f.at == None then None
      else
        var a := f.at.value;
        if f.flags.display then Some(if f.payload == CLEAR then Cleared(m.p) else m)
        else if f.flags.snapshot then
          if m.At? || m.Cleared? then None
          else if !f.flags.last then Some(Torn(m.p))
          else if m.p <= a <= |stream| then Some(At(a)) else None
        else if (m.At? || m.Cleared?) && a == m.p && 0 <= a && a + |f.payload| <= |stream|
             && f.payload == stream[a..a + |f.payload|] then Some(At(a + |f.payload|))
        else None
  }

  ghost function Follow(items: seq<Item>, m: Mode, generation: int, stream: bytes): Option<Mode> {
    if items == [] then Some(m)
    else
      match Move(m, items[0], generation, stream)
      case None => None
      case Some(m1) => Follow(items[1..], m1, generation, stream)
  }

  lemma {:induction false} FollowSnoc(items: seq<Item>, x: Item, m: Mode, generation: int, stream: bytes)
    ensures Follow(items + [x], m, generation, stream) ==
      match Follow(items, m, generation, stream)
      case None => None
      case Some(e) => Move(e, x, generation, stream)
  {
    if items != [] {
      assert (items + [x])[1..] == items[1..] + [x];
      match Move(m, items[0], generation, stream) {
        case None =>
        case Some(m1) => FollowSnoc(items[1..], x, m1, generation, stream);
      }
    }
  }

  /** Output still to come changes nothing for the items already in line. */
  lemma {:induction false} FollowLonger(items: seq<Item>, m: Mode, generation: int, stream: bytes, more: bytes)
    requires Follow(items, m, generation, stream) != None
    ensures Follow(items, m, generation, stream + more) == Follow(items, m, generation, stream)
  {
    if items != [] {
      var m1 := Move(m, items[0], generation, stream);
      assert Move(m, items[0], generation, stream + more) == m1 by {
        if items[0].Data? && items[0].frame.at != None {
          var a, n := items[0].frame.at.value, |items[0].frame.payload|;
          if 0 <= a && a + n <= |stream| { assert (stream + more)[a..a + n] == stream[a..a + n]; }
        }
      }
      FollowLonger(items[1..], m1.value, generation, stream, more);
    }
  }

  /** The end of the line: the viewer will be up to date, or freshly cleared there. */
  ghost predicate EndsAt(items: seq<Item>, m: Mode, generation: int, stream: bytes, p: int) {
    var e := Follow(items, m, generation, stream);
    e == Some(At(p)) || e == Some(Cleared(p))
  }

  /** From a cleared screen the line does no worse than from one that continues. */
  lemma {:induction false} FreshIsAsGood(items: seq<Item>, generation: int, stream: bytes, p: int, end: int)
    requires EndsAt(items, At(p), generation, stream, end)
    ensures EndsAt(items, Cleared(p), generation, stream, end)
  {
    if items != [] {
      var a := Move(At(p), items[0], generation, stream);
      var f := Move(Cleared(p), items[0], generation, stream);
      if a != f {
        assert a == Some(At(p)) && f == Some(Cleared(p));
        FreshIsAsGood(items[1..], generation, stream, p, end);
      }
    }
  }

  /** Losing a control message from the line does no harm to it. */
  lemma {:induction false} WithoutTextEnds(items: seq<Item>, m: Mode, generation: int, stream: bytes, end: int)
    requires EndsAt(items, m, generation, stream, end)
    ensures EndsAt(WithoutFirstText(items), m, generation, stream, end)
  {
    if items != [] {
      var m1 := Move(m, items[0], generation, stream);
      if items[0].Text? {
        if m1 != Some(m) { FreshIsAsGood(items[1..], generation, stream, m.p, end); }
      } else {
        WithoutTextEnds(items[1..], m1.value, generation, stream, end);
        assert WithoutFirstText(items)[1..] == WithoutFirstText(items[1..]);
      }
    }
  }

  // ---------------------------------------------------------------------
  // The invariant
  // ---------------------------------------------------------------------

  /**
    The guarantee.  When the viewer's generation is the session's, what it has
    painted since its last repaint is a slice of the stream that ends at its
    resume offset; and if a snapshot is half painted, that offset is too old to
    be resumed from.
  */
  ghost predicate Exact(v: Cli, generation: int, stream: bytes, base: int) {
    && !v.awaiting
    && (v.generation == Some(generation) ==>
         && v.lastSeq != None
         && var n, t := v.lastSeq.value, Screen(v.painted);
            && |t| <= n <= |stream| && t == stream[n - |t|..n]
            && (HalfPainted(v.painted) ==> n < base))
  }

  ghost predicate InMode(v: Cli, m: Mode, generation: int, stream: bytes, base: int) {
    var t := Screen(v.painted);
    var agree := v.generation == Some(generation);
    && (agree ==> v.lastSeq != None)
    && match m
       case At(p) =>
         && |t| <= p <= |stream| && t == stream[p - |t|..p] && !HalfPainted(v.painted)
         && (agree ==> v.lastSeq.value == p)
       case Cleared(p) =>
         0 <= p <= |stream| && t == [] && !HalfPainted(v.painted) && (agree ==> 0 <= v.lastSeq.value <= p)
       case Stale(p) => 0 <= p <= base && (agree ==> v.lastSeq.value < p)
       case Torn(p) => 0 <= p <= base && (agree ==> v.lastSeq.value < p)
  }

  ghost predicate Attended(c: Client) {
    c.version == 2 && Ordered(c.q) && |c.q.control| <= MAX_CONTROL_PENDING && NoneEmpty(c.q.binary)
  }

  ghost predicate Linked(c: Client, v: Cli, m: Mode, generation: int, stream: bytes, base: int) {
    && Attended(c)
    && InMode(v, m, generation, stream, base)
    && EndsAt(Waiting(c.q), m, generation, stream, |stream|)
  }

  ghost predicate Inv(w: World, m: Mode) {
    && Tracks(w.ring, w.stream, 0) && SafeHead(w.ring, w.stream, 0) && WithinBudget(w.ring)
        && w.ring.maxBytes == w.maxBytes
    && (w.cli.generation != None ==> w.cli.generation.value <= w.generation)
    && Exact(w.cli, w.generation, w.stream, Base(w.ring))
    && (w.conn != None ==> Linked(w.conn.value, w.cli, m, w.generation, w.stream, Base(w.ring)))
  }

  // ---------------------------------------------------------------------
  // Painting
  // ---------------------------------------------------------------------

  /** The frame as the viewer decodes it. */
  function Decoded(f: Frame): DataFrame
    requires f.at != None
  {
    DataFrame(f.at.value, FlagBits(f.flags), f.payload)
  }

  /** What painting one frame does to the viewer's cursor and screen. */
  lemma PaintEffect(v: Cli, f: Frame)
    requires f.at != None && !v.awaiting
    ensures
      var v1 := OnFrame(v, Decoded(f));
      var a, n := f.at.value, |f.payload|;
      var stream := !f.flags.display && !f.flags.snapshot;
      var repaint := !f.flags.display && f.flags.snapshot && f.flags.last;
      && !v1.awaiting && v1.generation == v.generation
      && v1.lastSeq == (if stream then Raise(v.lastSeq, a + n) else if repaint then Raise(v.lastSeq, a) else v.lastSeq)
      && Screen(v1.painted) == (if repaint || (f.flags.display && f.payload == CLEAR) then []
                                else if stream then Screen(v.painted) + f.payload else Screen(v.painted))
      && HalfPainted(v1.painted) == (if repaint || (f.flags.display && f.payload == CLEAR) then false
                                     else (!f.flags.display && f.flags.snapshot) || HalfPainted(v.painted))
  {
    var d := Decoded(f);
    assert FlagsOf(d.flags) == f.flags;
    PaintOne(v.painted, d);
    hide FlagBits, FlagsOf, Screen, HalfPainted;
  }

  lemma PaintStream(v: Cli, m: Mode, f: Frame, generation: int, stream: bytes, base: int)
    requires Exact(v, generation, stream, base) && InMode(v, m, generation, stream, base)
    requires Move(m, Data(f), generation, stream) != None && !f.flags.display && !f.flags.snapshot
    ensures var v1 := OnFrame(v, Decoded(f));
      var m1 := Move(m, Data(f), generation, stream).value;
      Exact(v1, generation, stream, base) && InMode(v1, m1, generation, stream, base)
  {
    hide Screen, HalfPainted, OnFrame, FlagBits, FlagsOf;
    PaintEffect(v, f);
    var t := Screen(v.painted);
    assert stream[m.p - |t|..m.p] + f.payload == stream[m.p - |t|..m.p + |f.payload|];
  }

  lemma PaintOther(v: Cli, m: Mode, f: Frame, generation: int, stream: bytes, base: int)
    requires Exact(v, generation, stream, base) && InMode(v, m, generation, stream, base) && 0 <= base <= |stream|
    requires Move(m, Data(f), generation, stream) != None && (f.flags.display || f.flags.snapshot)
    ensures var v1 := OnFrame(v, Decoded(f));
      var m1 := Move(m, Data(f), generation, stream).value;
      Exact(v1, generation, stream, base) && InMode(v1, m1, generation, stream, base)
  {
    hide Screen, HalfPainted, OnFrame, FlagBits, FlagsOf;
    PaintEffect(v, f);
  }

  lemma PaintKeeps(v: Cli, m: Mode, f: Frame, generation: int, stream: bytes, base: int)
    requires Exact(v, generation, stream, base) && InMode(v, m, generation, stream, base) && 0 <= base <= |stream|
    requires Move(m, Data(f), generation, stream) != None
    ensures var v1 := OnFrame(v, Decoded(f));
      var m1 := Move(m, Data(f), generation, stream).value;
      Exact(v1, generation, stream, base) && InMode(v1, m1, generation, stream, base)
  {
    hide Exact, InMode, OnFrame;
    if f.flags.display || f.flags.snapshot {
      PaintOther(v, m, f, generation, stream, base);
    } else {
      PaintStream(v, m, f, generation, stream, base);
    }
  }

  lemma ControlKeeps(v: Cli, m: Mode, c: Control, generation: int, stream: bytes, base: int)
    requires Exact(v, generation, stream, base) && InMode(v, m, generation, stream, base)
    requires Move(m, Text(c), generation, stream) != None
    ensures var v1 := OnControl(v, c.msg);
      var m1 := Move(m, Text(c), generation, stream).value;
      Exact(v1, generation, stream, base) && InMode(v1, m1, generation, stream, base)
  {
    hide Screen, HalfPainted;
  }

  /** What the viewer receives is what was queued: the codec is transparent. */
  lemma WireIsTransparent(f: Frame, v: Cli)
    requires f.at != None && ToWire(Data(f)) != None
    ensures Receive(v, ToWire(Data(f)).value) == OnFrame(v, Decoded(f))
  {
    hide OnFrame;
    DataRoundTrip(f.at.value, f.payload, FlagBits(f.flags));
    hide EncodeData, DecodeData, FlagBits;
  }

  // ---------------------------------------------------------------------
  // One step
  // ---------------------------------------------------------------------

  predicate Carries(f: Frame, at: int, payload: bytes, flags: Flags) {
    f.at == Some(at) && f.payload == payload && f.flags == flags
  }

  lemma QueuedJoins(c: Client, d: Client, at: int, payload: bytes, flags: Flags)
    requires Attended(c) && payload != [] && Queued(c, d, at, payload, flags)
    ensures Attended(d)
    ensures exists f: Frame :: Carries(f, at, payload, flags) && Waiting(d.q) == Waiting(c.q) + [Data(f)]
  {
    hide Ordered, Waiting, Run;
    var inside := Run(c.tracker, payload) != Outside;
    AddFrameKeepsOrder(c.q, payload, inside, Some(at), flags);
    AddFrameIsEnqueue(c.q, payload, inside, Some(at), flags);
  }

  /** A frame that takes the end of the line from `p` to `q`. */
  lemma PutMoves(c: Client, at: int, payload: bytes, flags: Flags, m: Mode, generation: int, stream: bytes, e: Mode,
      e1: Mode)
    requires Attended(c) && payload != [] && !flags.snapshot
    requires PutData(c, at, payload, flags).droppedBytes == c.droppedBytes
    requires Follow(Waiting(c.q), m, generation, stream) == Some(e)
    requires forall f: Frame :: Carries(f, at, payload, flags) ==>
      Move(e, Data(f), generation, stream) == Some(e1)
    ensures var d := PutData(c, at, payload, flags);
      && Attended(d) && Follow(Waiting(d.q), m, generation, stream) == Some(e1)
      && d.droppedEvents == c.droppedEvents && d.maxBytes == c.maxBytes
  {
    hide PutData, Waiting, Move, Follow;
    NoLossQueues(c, at, payload, flags);
    var d := PutData(c, at, payload, flags);
    QueuedJoins(c, d, at, payload, flags);
    var f: Frame :| Carries(f, at, payload, flags) && Waiting(d.q) == Waiting(c.q) + [Data(f)];
    FollowSnoc(Waiting(c.q), Data(f), m, generation, stream);
  }

  lemma InModeLonger(v: Cli, m: Mode, generation: int, stream: bytes, more: bytes, base: int, base1: int)
    requires InMode(v, m, generation, stream, base) && base <= base1
    ensures InMode(v, m, generation, stream + more, base1)
  {
    hide Screen, HalfPainted;
    if m.At? {
      var t := Screen(v.painted);
      assert (stream + more)[m.p - |t|..m.p] == stream[m.p - |t|..m.p];
    }
  }

  lemma ExactLonger(v: Cli, generation: int, stream: bytes, more: bytes, base: int, base1: int)
    requires Exact(v, generation, stream, base) && base <= base1
    ensures Exact(v, generation, stream + more, base1)
  {
    hide Screen, HalfPainted;
    if v.generation == Some(generation) {
      var n, t := v.lastSeq.value, Screen(v.painted);
      assert (stream + more)[n - |t|..n] == stream[n - |t|..n];
    }
  }

  lemma EmitLinks(c: Client, v: Cli, m: Mode, generation: int, stream: bytes, data: bytes, base: int, base1: int)
    requires Linked(c, v, m, generation, stream, base) && base <= base1 && data != []
    requires PutData(c, |stream|, data, LIVE).droppedBytes == c.droppedBytes
    ensures Linked(PutData(c, |stream|, data, LIVE), v, m, generation, stream + data, base1)
  {
    hide PutData, Waiting, Ordered;
    InModeLonger(v, m, generation, stream, data, base, base1);
    FollowLonger(Waiting(c.q), m, generation, stream, data);
    var e := Follow(Waiting(c.q), m, generation, stream).value;
    assert (stream + data)[|stream|..|stream| + |data|] == data;
    PutMoves(c, |stream|, data, LIVE, m, generation, stream + data, e, At(|stream| + |data|));
  }

  lemma MutedLinks(c: Client, v: Cli, m: Mode, generation: int, stream: bytes, data: bytes, base: int)
    requires Linked(c, v, m, generation, stream, base) && data != []
    requires PutData(c, |stream|, data, DISPLAY).droppedBytes == c.droppedBytes
    ensures Linked(PutData(c, |stream|, data, DISPLAY), v, m, generation, stream, base)
  {
    hide PutData, Waiting, Ordered;
    var e := Follow(Waiting(c.q), m, generation, stream).value;
    PutMoves(c, |stream|, data, DISPLAY, m, generation, stream, e, if data == CLEAR then Cleared(e.p) else e);
  }

  lemma NotifyLinks(c: Client, v: Cli, m: Mode, generation: int, stream: bytes, base: int, tag: int)
    requires Linked(c, v, m, generation, stream, base)
    ensures Linked(PutControl(c, Notice(tag)), v, m, generation, stream, base)
  {
    hide Ordered, Waiting, InMode;
    AddControlKeepsOrder(c.q, Notice(tag));
    AddControlIsEnqueue(c.q, Notice(tag));
    WithoutTextEnds(Waiting(c.q), m, generation, stream, |stream|);
    var items := if |c.q.control| == MAX_CONTROL_PENDING then WithoutFirstText(Waiting(c.q)) else Waiting(c.q);
    FollowSnoc(items, Text(Control(c.q.order + 1, Notice(tag))), m, generation, stream);
  }

  lemma DeliverLinks(c: Client, v: Cli, m: Mode, generation: int, stream: bytes, base: int) returns (m1: Mode)
    requires Linked(c, v, m, generation, stream, base) && Exact(v, generation, stream, base) && 0 <= base <= |stream|
    requires HasItems(c.q) && SendNext(c).1 != None
    ensures var v1 := Receive(v, SendNext(c).1.value);
      Exact(v1, generation, stream, base) && Linked(SendNext(c).0, v1, m1, generation, stream, base)
  {
    hide InMode, Exact, Ordered, ToWire, Receive, Move;
    TakeIsDequeue(c.q);
    var item := Next(c.q);
    assert Follow(Waiting(c.q), m, generation, stream) != None;
    assert Waiting(c.q)[0] == item && Waiting(c.q)[1..] == Waiting(Take(c.q));
    m1 := Move(m, item, generation, stream).value;
    assert NoneEmpty(Take(c.q).binary);
    match item {
      case Data(f) =>
        MovedFrameHasOffset(m, f, generation, stream);
        WireIsTransparent(f, v);
        PaintKeeps(v, m, f, generation, stream, base);
      case Text(x) =>
        ReceivesControl(x, v);
        ControlKeeps(v, m, x, generation, stream, base);
    }
  }

  lemma MovedFrameHasOffset(m: Mode, f: Frame, generation: int, stream: bytes)
    requires Move(m, Data(f), generation, stream) != None
    ensures f.at != None
  {
  }

  lemma ReceivesControl(x: Control, v: Cli)
    ensures ToWire(Text(x)) == Some(Json(x.msg)) && Receive(v, Json(x.msg)) == OnControl(v, x.msg)
  {
  }

  // ---------------------------------------------------------------------
  // Attaching
  // ---------------------------------------------------------------------

  lemma {:induction false} PiecesCount(c: Client, pieces: seq<Piece>, flags: Flags)
    requires c.version >= 2 && !flags.snapshot
    ensures PutPieces(c, pieces, flags).droppedBytes >= c.droppedBytes
    decreases |pieces|
  {
    if pieces != [] {
      hide PutData;
      PutDataCounts(c, pieces[0].at, pieces[0].data, flags);
      PutDataIdentity(c, pieces[0].at, pieces[0].data, flags);
      PiecesCount(PutData(c, pieces[0].at, pieces[0].data, flags), pieces[1..], flags);
    }
  }

  /** One replayed piece takes the end of the line from its start to its end. */
  lemma PieceMoves(c: Client, x: Piece, m: Mode, generation: int, stream: bytes)
    requires Attended(c) && EndsAt(Waiting(c.q), m, generation, stream, x.at)
    requires 0 <= x.at && x.data != [] && x.at + |x.data| <= |stream| && x.data == stream[x.at..x.at + |x.data|]
    requires PutData(c, x.at, x.data, REPLAY).droppedBytes == c.droppedBytes
    ensures var d := PutData(c, x.at, x.data, REPLAY);
      && Attended(d) && EndsAt(Waiting(d.q), m, generation, stream, x.at + |x.data|)
      && d.droppedEvents == c.droppedEvents
  {
    hide PutData, Waiting, Ordered, Follow;
    var e := Follow(Waiting(c.q), m, generation, stream).value;
    PutMoves(c, x.at, x.data, REPLAY, m, generation, stream, e, At(x.at + |x.data|));
  }

  /** Replayed pieces that cover the stream from `p` take the end of the line from `p` to the stream's end. */
  lemma {:induction false} PiecesMove(c: Client, pieces: seq<Piece>, m: Mode, generation: int, stream: bytes, p: int)
    requires Attended(c) && EndsAt(Waiting(c.q), m, generation, stream, p)
    requires Covers(pieces, stream, p, |stream|)
    requires PutPieces(c, pieces, REPLAY).droppedBytes == c.droppedBytes
    ensures var d := PutPieces(c, pieces, REPLAY);
      && Attended(d) && EndsAt(Waiting(d.q), m, generation, stream, |stream|)
      && d.droppedEvents == c.droppedEvents
    decreases |pieces|
  {
    hide PutData, Attended, EndsAt;
    if pieces != [] {
      var x := pieces[0];
      var c1 := PutData(c, x.at, x.data, REPLAY);
      ConnectedVersion(c);
      PutDataCounts(c, x.at, x.data, REPLAY);
      PutDataIdentity(c, x.at, x.data, REPLAY);
      PiecesCount(c1, pieces[1..], REPLAY);
      PieceMoves(c, x, m, generation, stream);
      PiecesMove(c1, pieces[1..], m, generation, stream, p + |x.data|);
    }
  }

  lemma ConnectedVersion(c: Client)
    requires Attended(c)
    ensures c.version == 2
  {
  }

  /** The chunks of a snapshot take a stale screen to its anchor. */
  lemma {:induction false} ChunksMove(c: Client, chunks: seq<bytes>, at: int, m: Mode, generation: int,
      stream: bytes, e: Mode)
    requires Attended(c) && chunks != [] && (forall i :: 0 <= i < |chunks| ==> |chunks[i]| > 0)
    requires Follow(Waiting(c.q), m, generation, stream) == Some(e) && (e.Stale? || e.Torn?) && e.p <= at <= |stream|
    ensures var d := EnqueueChunks(c, chunks, at, SNAPSHOT);
      Attended(d) && Follow(Waiting(d.q), m, generation, stream) == Some(At(at))
    decreases |chunks|
  {
    hide Waiting, Ordered;
    var f := if |chunks| == 1 then SNAPSHOT.(last := true) else SNAPSHOT;
    var c1 := Enqueue(c, chunks[0], false, Some(at), f);
    var x := Frame(c.q.order + 1, chunks[0], false, Some(at), f);
    AddFrameKeepsOrder(c.q, chunks[0], false, Some(at), f);
    AddFrameIsEnqueue(c.q, chunks[0], false, Some(at), f);
    FollowSnoc(Waiting(c.q), Data(x), m, generation, stream);
    if |chunks| > 1 {
      ChunksMove(c1, chunks[1..], at, m, generation, stream, Torn(e.p));
    } else {
      assert EnqueueChunks(c1, chunks[1..], at, SNAPSHOT) == c1;
    }
  }

  lemma FreshIsEmpty(maxPending: int, budget: int)
    ensures Attended(Fresh(2, maxPending, budget)) && Waiting(EMPTY) == []
  {
  }

  /** On a fresh connection a snapshot is queued whole, or refused with nothing queued. */
  lemma OfferOnFresh(maxPending: int, budget: int, end: int, snap: Option<bytes>)
    requires HasScreen(snap)
    ensures
      var c := Fresh(2, maxPending, budget);
      var (d, applied) := OfferSnapshot(c, end, snap);
      d == if applied then EnqueueChunks(c.(pending := |snap.value|), Split(snap.value), end, SNAPSHOT)
           else c.(droppedBytes := |snap.value|, droppedEvents := 1)
  {
    hide EnqueueChunks, Split, Announce, DropGroup, DropLive;
    var c := Fresh(2, maxPending, budget);
    assert ShedFor(c, |snap.value|) == c;
    if SnapshotFits(c, snap.value) {
      EnqueueChunksCounts(c.(pending := |snap.value|), Split(snap.value), end, SNAPSHOT);
    }
  }

  /** `attached` closes the replay: the viewer will stand at the stream's end. */
  lemma AttachedMoves(c: Client, m: Mode, generation: int, stream: bytes, base: int, required: bool, applied: bool)
    requires Attended(c) && EndsAt(Waiting(c.q), m, generation, stream, |stream|)
    ensures var d := PutControl(c, Attached(generation, |stream|, base, required, applied, false));
      Attended(d) && EndsAt(Waiting(d.q), m, generation, stream, |stream|)
  {
    hide Ordered, Waiting;
    var msg := Attached(generation, |stream|, base, required, applied, false);
    AddControlKeepsOrder(c.q, msg);
    AddControlIsEnqueue(c.q, msg);
    WithoutTextEnds(Waiting(c.q), m, generation, stream, |stream|);
    var items := if |c.q.control| == MAX_CONTROL_PENDING then WithoutFirstText(Waiting(c.q)) else Waiting(c.q);
    FollowSnoc(items, Text(Control(c.q.order + 1, msg)), m, generation, stream);
  }

  /** A resume continues the screen it finds. */
  lemma ResumeLinks(r: Ring, stream: bytes, generation: int, v: Cli, maxPending: int, budget: int, snap: Option<bytes>)
    requires Tracks(r, stream, 0) && Exact(v, generation, stream, Base(r))
    requires ResumeOk(r, generation, AttachSeq(v), v.generation)
    requires AttachV2(Fresh(2, maxPending, budget), r, generation, AttachSeq(v), v.generation, snap).droppedBytes == 0
    ensures Linked(AttachV2(Fresh(2, maxPending, budget), r, generation, AttachSeq(v), v.generation, snap),
                   Connected(v), At(v.lastSeq.value), generation, stream, Base(r))
  {
    hide PutData, Waiting, Ordered, Since, PutPieces, Screen, HalfPainted;
    var c := Fresh(2, maxPending, budget);
    var n := v.lastSeq.value;
    var m := At(n);
    FreshIsEmpty(maxPending, budget);
    SinceIsExact(r, stream, 0, n);
    var pieces := Since(r, n).value;
    PiecesMove(c, pieces, m, generation, stream, n);
    AttachedMoves(PutPieces(c, pieces, REPLAY), m, generation, stream, Base(r), false, false);
  }

  /** A cleared raw replay replaces the screen from the base on. */
  lemma RawLinks(c: Client, r: Ring, stream: bytes, generation: int)
    requires Tracks(r, stream, 0) && Attended(c) && c.q == EMPTY
    requires RawReplay(c, r).droppedBytes == c.droppedBytes
    ensures var d := RawReplay(c, r);
      && Attended(d) && EndsAt(Waiting(d.q), Stale(Base(r)), generation, stream, |stream|)
      && d.droppedEvents == c.droppedEvents
  {
    hide PutData, Ordered, ReplayFrames, PutPieces;
    var m := Stale(Base(r));
    var pieces := ReplayFrames(r, ReplayTarget(c.maxBytes));
    var c1 := PutData(c, r.endSeq, CLEAR, DISPLAY);
    ReplayIsWhole(r, stream, 0, ReplayTarget(c.maxBytes));
    PutDataCounts(c, r.endSeq, CLEAR, DISPLAY);
    PutDataIdentity(c, r.endSeq, CLEAR, DISPLAY);
    PiecesCount(c1, pieces, REPLAY);
    assert Waiting(c.q) == [];
    hide Waiting;
    PutMoves(c, r.endSeq, CLEAR, DISPLAY, m, generation, stream, m, Cleared(Base(r)));
    PiecesMove(c1, pieces, m, generation, stream, Base(r));
  }

  /** A snapshot replaces the screen as of the stream's end. */
  lemma SnapshotMoves(maxPending: int, budget: int, r: Ring, stream: bytes, generation: int, snap: Option<bytes>)
    requires Tracks(r, stream, 0) && HasScreen(snap)
    requires OfferSnapshot(Fresh(2, maxPending, budget), r.endSeq, snap).1
    ensures var d := OfferSnapshot(Fresh(2, maxPending, budget), r.endSeq, snap).0;
      Attended(d) && EndsAt(Waiting(d.q), Stale(Base(r)), generation, stream, |stream|) && d.droppedBytes == 0
  {
    hide OfferSnapshot, Waiting, Ordered, Split, EnqueueChunks;
    OfferOnFresh(maxPending, budget, r.endSeq, snap);
    FreshIsEmpty(maxPending, budget);
    SplitIsWhole(snap.value);
    var c := Fresh(2, maxPending, budget).(pending := |snap.value|);
    SplitNonEmpty(snap.value);
    EnqueueChunksCounts(c, Split(snap.value), r.endSeq, SNAPSHOT);
    ChunksMove(c, Split(snap.value), r.endSeq, Stale(Base(r)), generation, stream, Stale(Base(r)));
  }

  lemma SplitNonEmpty(payload: bytes)
    requires payload != []
    ensures Split(payload) != []
  {
  }

  /** Without a resume the screen is replaced, whatever it held. */
  lemma RepaintLinks(r: Ring, stream: bytes, generation: int, v: Cli, maxPending: int, budget: int, snap: Option<bytes>)
    requires Tracks(r, stream, 0) && Exact(v, generation, stream, Base(r))
    requires !ResumeOk(r, generation, AttachSeq(v), v.generation)
    requires AttachV2(Fresh(2, maxPending, budget), r, generation, AttachSeq(v), v.generation, snap).droppedBytes
          == RefusedBytes(Fresh(2, maxPending, budget), r, generation, v, snap)
    ensures Linked(AttachV2(Fresh(2, maxPending, budget), r, generation, AttachSeq(v), v.generation, snap),
                   Connected(v), Stale(Base(r)), generation, stream, Base(r))
  {
    hide Waiting, Ordered, Screen, HalfPainted, PutData, RawReplay;
    var c := Fresh(2, maxPending, budget);
    FreshIsEmpty(maxPending, budget);
    assert InMode(Connected(v), Stale(Base(r)), generation, stream, Base(r));
    hide InMode, Exact;
    if HasScreen(snap) { OfferOnFresh(maxPending, budget, r.endSeq, snap); }
    var (c1, applied) := OfferSnapshot(c, r.endSeq, snap);
    if applied {
      SnapshotMoves(maxPending, budget, r, stream, generation, snap);
      AttachedMoves(c1, Stale(Base(r)), generation, stream, Base(r), true, true);
    } else {
      assert Attended(c1) && c1.q == EMPTY;
      RawLinks(c1, r, stream, generation);
      AttachedMoves(RawReplay(c1, r), Stale(Base(r)), generation, stream, Base(r), true, false);
    }
  }

  // ---------------------------------------------------------------------
  // Every run
  // ---------------------------------------------------------------------

  function Play(w: World, steps: seq<Step>): (w': World)
    requires Shaped(w.ring)
    ensures Shaped(w'.ring)
  {
    if steps == [] then w else Step1(Play(w, steps[..|steps| - 1]), steps[|steps| - 1])
  }

  /** No state of the run, before or after any of its steps, has seen a loss. */
  predicate LosslessRun(w: World, steps: seq<Step>)
    requires Shaped(w.ring)
  {
    NoLoss(Play(w, steps)) && (steps == [] || LosslessRun(w, steps[..|steps| - 1]))
  }

  lemma EmitStep(w: World, m: Mode, data: bytes)
    requires Inv(w, m) && w.maxBytes > 0 && data != [] && NoLoss(w) && NoLoss(Step1(w, Emit(data)))
    ensures Inv(Step1(w, Emit(data)), m)
  {
    hide Linked, Exact, PutData, Append, WithinBudget;
    var r1 := Append(w.ring, data);
    AppendKeeps(w.ring, w.stream, 0, data);
    ExactLonger(w.cli, w.generation, w.stream, data, Base(w.ring), Base(r1));
    if w.conn != None {
      EmitLinks(w.conn.value, w.cli, m, w.generation, w.stream, data, Base(w.ring), Base(r1));
    }
  }

  lemma ConnectStep(w: World, m: Mode, maxPending: int, budget: int, snap: Option<bytes>) returns (m1: Mode)
    requires Inv(w, m) && w.conn == None && NoLoss(Step1(w, Connect(maxPending, budget, snap)))
    ensures Inv(Step1(w, Connect(maxPending, budget, snap)), m1)
  {
    hide Linked, Tracks, AttachV2, OfferSnapshot, Screen, HalfPainted, SafeHead, WithinBudget;
    if ResumeOk(w.ring, w.generation, AttachSeq(w.cli), w.cli.generation) {
      m1 := At(w.cli.lastSeq.value);
      ResumeLinks(w.ring, w.stream, w.generation, w.cli, maxPending, budget, snap);
    } else {
      m1 := Stale(Base(w.ring));
      RepaintLinks(w.ring, w.stream, w.generation, w.cli, maxPending, budget, snap);
    }
  }

  /** A viewer learns no generation but the one it is connected to. */
  lemma DeliverStep(w: World, m: Mode) returns (m1: Mode)
    requires Inv(w, m) && w.conn != None && HasItems(w.conn.value.q) && SendNext(w.conn.value).1 != None
    ensures Inv(Step1(w, Deliver), m1)
  {
    hide Exact, InMode, Ordered, Tracks, SafeHead, WithinBudget, ToWire;
    TracksBase(w.ring, w.stream);
    var c := w.conn.value;
    m1 := DeliverLinks(c, w.cli, m, w.generation, w.stream, Base(w.ring));
    TakeIsDequeue(c.q);
    var item := Next(c.q);
    assert Waiting(c.q)[0] == item;
    assert Move(m, item, w.generation, w.stream) != None;
    match item {
      case Data(f) => WireIsTransparent(f, w.cli);
      case Text(x) => ReceivesControl(x, w.cli);
    }
    hide Waiting, Linked;
  }

  lemma EmptyRing(maxBytes: int)
    requires maxBytes > 0
    ensures var r := Empty(maxBytes); Tracks(r, [], 0) && SafeHead(r, [], 0) && WithinBudget(r)
  {
    hide NoCleanCut, OpenThrough;
  }

  /** A viewer of an older generation has nothing to be exact about. */
  lemma NewGeneration(v: Cli, generation: int, base: int, base1: int, stream: bytes)
    requires Exact(v, generation, stream, base) && (v.generation != None ==> v.generation.value <= generation)
    ensures Exact(v, generation + 1, [], base1)
  {
    hide Screen, HalfPainted;
  }

  lemma RestartStep(w: World, m: Mode)
    requires Inv(w, m) && w.maxBytes > 0
    ensures Inv(Step1(w, Restart), m)
  {
    EmptyRing(w.maxBytes);
    NewGeneration(w.cli, w.generation, Base(w.ring), 0, w.stream);
    hide Screen, HalfPainted, Tracks, SafeHead, WithinBudget, Exact, Linked;
  }

  lemma StepKeeps(w: World, m: Mode, step: Step) returns (m1: Mode)
    requires Inv(w, m) && w.maxBytes > 0 && NoLoss(w) && NoLoss(Step1(w, step))
    ensures Inv(Step1(w, step), m1)
  {
    hide Linked, Exact, Tracks, PutData, AttachV2, SendNext, Append, SafeHead, WithinBudget;
    m1 := m;
    TracksBase(w.ring, w.stream);
    match step {
      case Emit(data) => if data != [] { EmitStep(w, m, data); }
      case EmitMuted(data) =>
        if data != [] && w.conn != None {
          MutedLinks(w.conn.value, w.cli, m, w.generation, w.stream, data, Base(w.ring));
        }
      case Connect(maxPending, budget, snap) =>
        if w.conn == None { m1 := ConnectStep(w, m, maxPending, budget, snap); }
      case Deliver =>
        if w.conn != None && HasItems(w.conn.value.q) && SendNext(w.conn.value).1 != None { m1 := DeliverStep(w, m); }
      case Disconnect =>
      case Restart => RestartStep(w, m);
      case Notify(tag) =>
        if w.conn != None { NotifyLinks(w.conn.value, w.cli, m, w.generation, w.stream, Base(w.ring), tag); }
    }
  }

  lemma TracksBase(r: Ring, stream: bytes)
    requires Tracks(r, stream, 0)
    ensures 0 <= Base(r) <= |stream| == r.endSeq
  {
  }

  /** From any state that keeps the invariant, a run without losses keeps it. */
  lemma {:induction false} Onwards(w: World, m: Mode, steps: seq<Step>) returns (m1: Mode)
    requires Inv(w, m) && w.maxBytes > 0 && LosslessRun(w, steps)
    ensures Inv(Play(w, steps), m1) && Play(w, steps).maxBytes == w.maxBytes
    decreases |steps|
  {
    hide Step1;
    if steps == [] {
      m1 := m;
    } else {
      var before := steps[..|steps| - 1];
      var m0 := Onwards(w, m, before);
      hide Inv, NoLoss;
      assert LosslessRun(w, before);
      m1 := StepKeeps(Play(w, before), m0, steps[|steps| - 1]);
      StepBudget(Play(w, before), steps[|steps| - 1]);
    }
  }

  lemma EveryWorld(maxBytes: int, steps: seq<Step>) returns (m: Mode)
    requires maxBytes > 0 && LosslessRun(Begin(maxBytes), steps)
    ensures Inv(Play(Begin(maxBytes), steps), m) && Play(Begin(maxBytes), steps).maxBytes == maxBytes
  {
    BeginInv(maxBytes);
    hide Inv, LosslessRun;
    m := Onwards(Begin(maxBytes), At(0), steps);
  }

  lemma BeginInv(maxBytes: int)
    requires maxBytes > 0
    ensures Inv(Begin(maxBytes), At(0))
  {
  }

  lemma StepBudget(w: World, step: Step)
    requires Shaped(w.ring)
    ensures Step1(w, step).maxBytes == w.maxBytes
  {
    hide PutData, AttachV2, SendNext, Append;
  }

  /**
    Exact resume.  Over every run that loses nothing, whenever the viewer holds
    the session's generation, the stream bytes it has painted since its last
    clear or snapshot are the slice of the stream that ends at its resume offset,
    nothing repeated and nothing skipped, although connections are cut at any
    point and offsets are evicted.
  */
  lemma ExactResume(maxBytes: int, steps: seq<Step>)
    requires maxBytes > 0 && LosslessRun(Begin(maxBytes), steps)
    ensures
      var w := Play(Begin(maxBytes), steps);
      w.cli.generation == Some(w.generation) ==>
        && w.cli.lastSeq != None
        && var n, text := w.cli.lastSeq.value, Screen(w.cli.painted);
           |text| <= n <= |w.stream| && text == w.stream[n - |text|..n]
  {
    hide Play, LosslessRun, Linked;
    var m := EveryWorld(maxBytes, steps);
  }

  /** A half painted snapshot is never resumed over: the next attach repaints. */
  lemma HalfPaintedIsRepainted(maxBytes: int, steps: seq<Step>)
    requires maxBytes > 0 && LosslessRun(Begin(maxBytes), steps)
    requires HalfPainted(Play(Begin(maxBytes), steps).cli.painted)
    ensures
      var w := Play(Begin(maxBytes), steps);
      !ResumeOk(w.ring, w.generation, AttachSeq(w.cli), w.cli.generation)
  {
    hide Play, LosslessRun, Linked;
    var m := EveryWorld(maxBytes, steps);
  }

  /** A viewer that has received everything in line shows the stream to its end. */
  lemma DrainedIsCurrent(maxBytes: int, steps: seq<Step>)
    requires maxBytes > 0 && LosslessRun(Begin(maxBytes), steps)
    requires var w := Play(Begin(maxBytes), steps);
      w.conn != None && !HasItems(w.conn.value.q)
    ensures
      var w := Play(Begin(maxBytes), steps);
      var text := Screen(w.cli.painted);
      && |text| <= |w.stream| && text == w.stream[|w.stream| - |text|..]
      && !HalfPainted(w.cli.painted)
      && (w.cli.generation == Some(w.generation) && text != [] ==> w.cli.lastSeq == Some(|w.stream|))
  {
    hide Play, LosslessRun, Ordered;
    var m := EveryWorld(maxBytes, steps);
    var w := Play(Begin(maxBytes), steps);
    assert Waiting(w.conn.value.q) == [];
  }
}
