/**
  Why exact resume and whole snapshots need their hypotheses: what a viewer makes
  of frames with bytes missing between them, and two runs that end badly.
*/
module Holes {
  import opened Bytes
  import opened Ansi
  import opened Protocol
  import opened OutboundQueues
  import opened ClientSpec
  import opened ClientRuns
  import opened SnapshotGroups
  import opened RingSpec
  import opened Replay
  import opened SessionSpec
  import opened Viewer
  import opened Resume
  import opened Fidelity
  import opened Lossless
  import opened Shedding

  // ---------------------------------------------------------------------
  // Frames with holes between them
  // ---------------------------------------------------------------------

  /** The frames of the resumable stream, each true to it, in the order of their offsets from `p` on. */
  ghost predicate Ascending(frames: seq<DataFrame>, stream: bytes, p: int) {
    frames == []
    || (var f := frames[0];
        && !FlagsOf(f.flags).display && !FlagsOf(f.flags).snapshot
        && 0 <= p <= f.at && f.at + |f.payload| <= |stream|
        && f.payload == stream[f.at..f.at + |f.payload|]
        && Ascending(frames[1..], stream, f.at + |f.payload|))
  }

  /** Each frame begins where the one before it ended. */
  predicate Adjacent(frames: seq<DataFrame>, p: int) {
    frames == [] || (frames[0].at == p && Adjacent(frames[1..], p + |frames[0].payload|))
  }

  function LastEnd(frames: seq<DataFrame>, p: int): int {
    if frames == [] then p else LastEnd(frames[1..], frames[0].at + |frames[0].payload|)
  }

  function PaintAll(v: Cli, frames: seq<DataFrame>): Cli
    decreases |frames|
  {
    if frames == [] then v else PaintAll(OnFrame(v, frames[0]), frames[1..])
  }

  /** One frame moves the cursor to its end, whether or not it began at the cursor. */
  lemma PaintStep(v: Cli, f: DataFrame)
    requires !v.awaiting && v.lastSeq != None && v.lastSeq.value <= f.at
    requires !FlagsOf(f.flags).display && !FlagsOf(f.flags).snapshot
    ensures var v1 := OnFrame(v, f);
      !v1.awaiting && v1.lastSeq == Some(f.at + |f.payload|) && Screen(v1.painted) == Screen(v.painted) + f.payload
  {
    PaintOne(v.painted, f);
    hide Screen;
  }

  lemma {:induction false} PaintedExtent(v: Cli, frames: seq<DataFrame>, stream: bytes, p: int)
    requires !v.awaiting && v.lastSeq == Some(p) && 0 <= p <= |stream| && Ascending(frames, stream, p)
    ensures var v1, n := PaintAll(v, frames), LastEnd(frames, p);
      && !v1.awaiting && v1.lastSeq == Some(n) && p <= n <= |stream|
      && |Screen(v1.painted)| <= |Screen(v.painted)| + n - p
      && (|Screen(v1.painted)| == |Screen(v.painted)| + n - p <==> Adjacent(frames, p))
      && (Adjacent(frames, p) ==> Screen(v1.painted) == Screen(v.painted) + stream[p..n])
    decreases |frames|
  {
    hide Screen, OnFrame, FlagsOf;
    if frames != [] {
      var f := frames[0];
      var q := f.at + |f.payload|;
      PaintStep(v, f);
      PaintedExtent(OnFrame(v, f), frames[1..], stream, q);
      var n := LastEnd(frames, p);
      assert f.at == p ==> stream[p..q] + stream[q..n] == stream[p..n];
    }
  }

  /**
    The cursor moves by the maximum, with no check that a frame begins where it
    stands.  So a screen that shows the stream from `s` up to the cursor goes on
    doing so exactly when every frame that arrives is adjacent to the last.
  */
  lemma ExactIffAdjacent(v: Cli, frames: seq<DataFrame>, stream: bytes, s: int, p: int)
    requires !v.awaiting && v.lastSeq == Some(p) && 0 <= s <= p <= |stream| && Screen(v.painted) == stream[s..p]
    requires Ascending(frames, stream, p)
    ensures var v1, n := PaintAll(v, frames), LastEnd(frames, p);
      && v1.lastSeq == Some(n) && p <= n <= |stream|
      && (Screen(v1.painted) == stream[s..n] <==> Adjacent(frames, p))
  {
    hide Screen, PaintAll, Ascending, Adjacent, LastEnd;
    PaintedExtent(v, frames, stream, p);
    JoinSlices(stream, s, p, LastEnd(frames, p));
  }

  lemma JoinSlices(stream: bytes, s: int, p: int, n: int)
    requires 0 <= s <= p <= n <= |stream|
    ensures stream[s..p] + stream[p..n] == stream[s..n] && |stream[s..p]| == p - s && |stream[s..n]| == n - s
  {
  }

  // ---------------------------------------------------------------------
  // A run whose losses are never repaired
  // ---------------------------------------------------------------------

  /** A connection at rest: a budget of eleven bytes, nothing lost yet. */
  ghost predicate Resting(c: Client, binary: seq<Frame>, control: seq<Control>) {
    && c.version == 2 && c.maxPending == 512 && c.maxBytes == 11 && c.tracker == Outside && !c.closed
    && c.pending == Total(binary)
    && c.lostFrom == None && !c.gapOpen && !c.noticeOpen
    && c.q.binary == binary && c.q.control == control
  }

  /** A ring that has trimmed nothing yet. */
  ghost predicate Small(r: Ring, size: int) {
    && Shaped(r) && r.maxBytes == 1000 && r.size == r.endSeq == size <= 20
    && forall i :: 0 <= i < |r.chunks| ==> r.chunks[i] != []
  }

  ghost predicate AtRest(w: World, stream: bytes, binary: seq<Frame>, control: seq<Control>) {
    Small(w.ring, |stream|) && w.stream == stream && w.conn != None && Resting(w.conn.value, binary, control)
  }

  function Live(order: int, at: int, data: bytes): Frame {
    Frame(order, data, false, Some(at), LIVE)
  }

  lemma PutJoins(c: Client, binary: seq<Frame>, control: seq<Control>, at: int, data: bytes)
    requires Resting(c, binary, control) && |binary| + |control| < 512 && Total(binary) + |data| <= 11 && ESC !in data
    ensures var d, o := PutData(c, at, data, LIVE), c.q.order + 1;
      Resting(d, binary + [Live(o, at, data)], control) && d.q.order == o
  {
    PlainEndsOutside(data);
    hide PutData, Run;
    RoomQueues(c, at, data, LIVE);
    TotalSnoc(binary, Live(c.q.order + 1, at, data));
    hide Total;
  }

  /** Nothing is trimmed while the buffer has room. */
  lemma RingGrows(r: Ring, size: int, data: bytes)
    requires Small(r, size) && data != [] && 0 <= size && size + |data| <= 20
    ensures Small(Append(r, data), size + |data|)
  {
  }

  /** Output for which the queue has a place. */
  lemma EmitJoins(w: World, stream: bytes, binary: seq<Frame>, control: seq<Control>, data: bytes)
    requires AtRest(w, stream, binary, control) && |binary| + |control| < 512
    requires Total(binary) + |data| <= 11 && |stream| + |data| <= 20 && data != [] && ESC !in data
    ensures var w1 := Step1(w, Emit(data));
      var o := w.conn.value.q.order + 1;
      AtRest(w1, stream + data, binary + [Live(o, |stream|, data)], control)
      && w1.cli == w.cli && w1.generation == w.generation && w1.conn != None && w1.conn.value.q.order == o
  {
    hide PutData, Append, Total, Resting;
    PutJoins(w.conn.value, binary, control, |stream|, data);
    RingGrows(w.ring, |stream|, data);
  }

  /** The head of the line is a frame, and it reaches the viewer. */
  lemma HeadArrives(w: World, f: Frame)
    requires Shaped(w.ring) && w.conn != None && BinaryFirst(w.conn.value.q) && w.conn.value.q.binary[0] == f
    requires f.at != None && 0 <= f.at.value <= 20 && |f.payload| <= 11
    ensures Step1(w, Deliver) == w.(conn := Some(CloseBurst(TakeNext(w.conn.value))), cli := OnFrame(w.cli, Decoded(f)))
  {
    assert ToWire(Data(f)) != None;
    WireIsTransparent(f, w.cli);
    hide ToWire, OnFrame, Receive, CloseBurst, TakeNext;
  }

  lemma FrameArrives(w: World, stream: bytes, binary: seq<Frame>, control: seq<Control>)
    requires AtRest(w, stream, binary, control)
    requires binary != [] && (control == [] || binary[0].order < control[0].order)
    requires binary[0].at != None && 0 <= binary[0].at.value <= 20 && |binary[0].payload| <= 11
    ensures var w1 := Step1(w, Deliver);
      AtRest(w1, stream, binary[1..], control)
      && w1.cli == OnFrame(w.cli, Decoded(binary[0])) && w1.generation == w.generation
      && w1.conn != None && w1.conn.value.q.order == w.conn.value.q.order
  {
    hide Step1, OnFrame;
    HeadArrives(w, binary[0]);
  }

  lemma ClearQueued()
    ensures PutData(Fresh(2, 512, 11), 0, CLEAR, DISPLAY)
         == Fresh(2, 512, 11).(pending := 11, q := AddFrame(EMPTY, CLEAR, false, Some(0), DISPLAY))
  {
    ClearInsideOsc(Outside);
    hide Run, PutData;
    RoomQueues(Fresh(2, 512, 11), 0, CLEAR, DISPLAY);
  }

  lemma NothingToReplay()
    ensures RawReplay(Fresh(2, 512, 11), Empty(1000)) == PutData(Fresh(2, 512, 11), 0, CLEAR, DISPLAY)
  {
    hide PutData;
    assert Framed(0, Flatten([]), FrameSize(11)) == [];
  }

  lemma RawAttach(c: Client, r: Ring)
    ensures AttachV2(c, r, 0, None, None, None)
         == PutControl(RawReplay(c, r),
             Attached(0, r.endSeq, Base(r), true, false, RawReplay(c, r).droppedEvents > c.droppedEvents))
  {
    hide RawReplay, PutControl;
  }

  const FIRST_LINE := Fresh(2, 512, 11).(
    pending := 11,
    q := AddControl(AddFrame(EMPTY, CLEAR, false, Some(0), DISPLAY), Attached(0, 0, 0, true, false, false)))

  lemma FirstLine()
    ensures AttachV2(Fresh(2, 512, 11), Empty(1000), 0, None, None, None) == FIRST_LINE
  {
    hide PutData, RawReplay, AttachV2;
    ClearQueued();
    NothingToReplay();
    RawAttach(Fresh(2, 512, 11), Empty(1000));
    hide AddFrame, AddControl;
  }

  /** The first attach to a session that has said nothing: a clear, then `attached`. */
  lemma FirstAttach()
    ensures var w := Step1(Begin(1000), Connect(512, 11, None));
      && AtRest(w, [], [Frame(1, CLEAR, false, Some(0), DISPLAY)],
                [Control(2, Attached(0, 0, 0, true, false, false))])
      && w.cli == START && w.generation == 0 && w.conn.value.q.order == 2
  {
    hide AttachV2, OfferSnapshot, RefusedBytes;
    FirstLine();
    var w := Step1(Begin(1000), Connect(512, 11, None));
    assert w.conn == Some(FIRST_LINE) && w.ring == Empty(1000) && w.stream == [];
    TotalOfOne(Frame(1, CLEAR, false, Some(0), DISPLAY));
    hide Step1;
  }

  /** The budget is used up: the older of two frames goes, and the notices queue up behind the other. */
  lemma EmitSheds(w: World, stream: bytes, first: Frame, second: Frame, data: bytes)
    requires AtRest(w, stream, [first, second], []) && |stream| + |data| <= 20 && data != [] && ESC !in data
    requires |first.payload| + |second.payload| + |data| > 11 >= |second.payload| + |data|
    requires !first.endsInside && first.flags == LIVE && first.at != None
    ensures var w1 := Step1(w, Emit(data));
      var o := w.conn.value.q.order;
      && w1.stream == stream + data && w1.cli == w.cli && w1.generation == w.generation
      && Shaped(w1.ring) && w1.ring.size == w1.ring.endSeq == |stream| + |data|
      && w1.conn != None && w1.conn.value.q.binary == [second, Live(o + 3, |stream|, data)]
      && w1.conn.value.q.control == [Control(o + 1, Gap(first.at.value, first.at.value + |first.payload|)),
                                     Control(o + 2, Desync)]
  {
    PlainEndsOutside(data);
    TotalOfTwo(first, second);
    var c := w.conn.value;
    ShedsOne(c, first, second, |data|);
    hide ShedFor, Append, Run, Total;
    RingGrows(w.ring, |stream|, data);
  }

  lemma TotalOfTwo(first: Frame, second: Frame)
    ensures Total([first, second]) == |first.payload| + |second.payload|
  {
    assert [first, second][1..] == [second];
    TotalOfOne(second);
  }

  lemma TotalOfOne(f: Frame)
    ensures Total([f]) == |f.payload|
  {
    assert [f][1..] == [];
    assert Total([]) == 0;
  }

  lemma ShedsOne(c: Client, first: Frame, second: Frame, size: int)
    requires c.version == 2 && c.maxPending == 512 && c.maxBytes == 11
    requires c.pending == |first.payload| + |second.payload| && c.pending + size > 11 >= |second.payload| + size
    requires c.lostFrom == None && !c.gapOpen && !c.noticeOpen
    requires c.q.binary == [first, second] && c.q.control == []
    requires !first.endsInside && first.flags == LIVE && first.at != None
    ensures var d := ShedFor(c, size);
      && d.version == 2 && d.maxPending == 512 && d.maxBytes == 11 && d.tracker == c.tracker
      && d.q.binary == [second] && d.q.order == c.q.order + 2
      && d.q.control == [Control(c.q.order + 1, Gap(first.at.value, first.at.value + |first.payload|)),
                         Control(c.q.order + 2, Desync)]
  {
    var c1 := DropFrame(c);
    assert DropOldest(c) == (c1, true);
    assert c1.q.binary == [second];
    assert !Over(c1, size);
    assert ShedLoop(c, size, false) == (c1, true);
    hide DropOldest, ShedLoop;
  }

  /** The head of the line is `attached`, and it reaches the viewer. */
  lemma AttachedArrives(w: World, stream: bytes, m: Control)
    requires AtRest(w, stream, [], [m])
    ensures var w1 := Step1(w, Deliver);
      AtRest(w1, stream, [], []) && w1.cli == OnControl(w.cli, m.msg) && w1.generation == w.generation
          && w1.conn != None
  {
    ReceivesControl(m, w.cli);
    hide OnControl, Receive;
  }

  /** The first three steps: connect, and receive the clear and `attached`. */
  function Joined(w: World): (v: World)
    requires Shaped(w.ring)
  {
    Step1(Step1(Step1(w, Connect(512, 11, None)), Deliver), Deliver)
  }

  lemma FirstSteps() returns (w: World)
    ensures w == Joined(Begin(1000))
    ensures Shaped(w.ring) && w.conn != None && AtRest(w, [], [], []) && w.generation == 0
    ensures !w.cli.awaiting && w.cli.lastSeq == Some(0) && w.cli.generation == Some(0) && Screen(w.cli.painted) == []
  {
    hide Step1, AtRest, OnFrame;
    FirstAttach();
    var w1 := Step1(Begin(1000), Connect(512, 11, None));
    var clear, attached := Frame(1, CLEAR, false, Some(0), DISPLAY), Control(2, Attached(0, 0, 0, true, false, false));
    FrameArrives(w1, [], [clear], [attached]);
    var w2 := Step1(w1, Deliver);
    PaintEffect(START, clear);
    assert [clear][1..] == [];
    AttachedArrives(w2, [], attached);
    w := Step1(w2, Deliver);
  }

  const A: bytes := [65]
  const B: bytes := [66]
  const C: bytes := [67, 67, 67, 67, 67, 67, 67, 67, 67, 67]
  const D: bytes := [68]

  /** `A` is printed and painted. */
  lemma OneMore(w: World) returns (v: World)
    requires Shaped(w.ring) && w.conn != None && AtRest(w, [], [], [])
    requires !w.cli.awaiting && w.cli.lastSeq == Some(0) && Screen(w.cli.painted) == []
    ensures v == Step1(Step1(w, Emit(A)), Deliver) && v.conn != None && AtRest(v, A, [], [])
    ensures !v.cli.awaiting && v.cli.lastSeq == Some(1) && Screen(v.cli.painted) == A
    ensures v.cli.generation == w.cli.generation && v.generation == w.generation
  {
    hide Step1, OnFrame, Screen, AtRest;
    EmitJoins(w, [], [], [], A);
    var w1 := Step1(w, Emit(A));
    var a := Live(w.conn.value.q.order + 1, 0, A);
    assert [] + A == A && [] + [a] == [a] && [a][1..] == [];
    FrameArrives(w1, A, [a], []);
    PaintEffect(w1.cli, a);
    v := Step1(w1, Deliver);
  }

  /** `B`, `C` and `D` are printed, and `B` is shed. */
  lemma ThreeMore(w: World) returns (v: World)
    requires Shaped(w.ring) && w.conn != None && AtRest(w, A, [], [])
    ensures v == Step1(Step1(Step1(w, Emit(B)), Emit(C)), Emit(D))
    ensures v.cli == w.cli && v.stream == A + B + C + D && v.generation == w.generation
    ensures v.ring.size == v.ring.endSeq == 13
    ensures v.conn != None && BinaryFirst(v.conn.value.q)
    ensures var c := v.conn.value.q.binary[0]; c.at == Some(2) && c.payload == C && c.flags == LIVE
  {
    hide Step1, AtRest;
    var o := w.conn.value.q.order;
    EmitJoins(w, A, [], [], B);
    var w3 := Step1(w, Emit(B));
    var b, c := Live(o + 1, 1, B), Live(o + 2, 2, C);
    assert [] + [b] == [b] && [b] + [c] == [b, c] && [b][1..] == [];
    EmitJoins(w3, A + B, [b], [], C);
    var w4 := Step1(w3, Emit(C));
    EmitSheds(w4, A + B + C, b, c, D);
    v := Step1(w4, Emit(D));
  }

  /** The six steps after: `A` is printed and painted, `B`, `C` and `D` are printed, and one more item is delivered. */
  function Lossy(w: World): (v: World)
    requires Shaped(w.ring)
  {
    Step1(Step1(Step1(Step1(Step1(Step1(w, Emit(A)), Deliver), Emit(B)), Emit(C)), Emit(D)), Deliver)
  }

  /**
    Exact resume fails once something is shed: the viewer holds the session's
    generation, awaits no repair, and would resume from an offset the session
    accepts, but the `B` it never got is missing from its screen for good.
  */
  lemma ShedBreaksResume()
    ensures var w := Lossy(Joined(Begin(1000)));
      && w.stream == A + B + C + D && Screen(w.cli.painted) == A + C
      && w.cli.generation == Some(w.generation) && !w.cli.awaiting && w.cli.lastSeq == Some(12)
      && ResumeOk(w.ring, w.generation, AttachSeq(w.cli), w.cli.generation)
  {
    hide Step1, OnFrame, Screen, AtRest;
    var w := FirstSteps();
    var w2 := OneMore(w);
    var w5 := ThreeMore(w2);
    var c := w5.conn.value.q.binary[0];
    HeadArrives(w5, c);
    PaintEffect(w5.cli, c);
  }

  // ---------------------------------------------------------------------
  // A run that tears a snapshot
  // ---------------------------------------------------------------------

  lemma SplitsInTwo(payload: bytes)
    requires |payload| == MAX_DATA_FRAME + 1
    ensures Split(payload) == [payload[..MAX_DATA_FRAME], payload[MAX_DATA_FRAME..]]
  {
    assert Split(payload[MAX_DATA_FRAME..]) == [payload[MAX_DATA_FRAME..]];
  }

  const LAST_CHUNK := SNAPSHOT.(last := true)

  /** Room for one byte and the snapshot. */
  const TORN_BUDGET := MAX_DATA_FRAME + 2

  /** A snapshot of two chunks joins the line whole. */
  lemma SnapshotJoins(c: Client, at: int, payload: bytes)
    requires c.version == 2 && c.maxPending == 512 && c.maxBytes == TORN_BUDGET && QueueLen(c.q) == 1 && c.pending == 1
    requires |payload| == MAX_DATA_FRAME + 1
    ensures var d := PutData(c, at, payload, SNAPSHOT);
      var first := Frame(c.q.order + 1, payload[..MAX_DATA_FRAME], false, Some(at), SNAPSHOT);
      var second := Frame(c.q.order + 2, payload[MAX_DATA_FRAME..], false, Some(at), LAST_CHUNK);
      d == c.(pending := c.pending + |payload|,
              q := c.q.(binary := c.q.binary + [first] + [second], frames := c.q.frames + [first] + [second],
                        order := c.q.order + 2))
  {
    SplitsInTwo(payload);
    var a, b := payload[..MAX_DATA_FRAME], payload[MAX_DATA_FRAME..];
    hide Split;
    var c1 := c.(pending := c.pending + |payload|);
    assert QueueSnapshot(c, at, payload, SNAPSHOT) == EnqueueChunks(c1, [a, b], at, SNAPSHOT);
    var c2 := Enqueue(c1, a, false, Some(at), SNAPSHOT);
    assert [a, b][1..] == [b];
    var c3 := Enqueue(c2, b, false, Some(at), LAST_CHUNK);
    assert EnqueueChunks(c2, [b], at, SNAPSHOT) == EnqueueChunks(c3, [b][1..], at, SNAPSHOT);
    assert EnqueueChunks(c3, [], at, SNAPSHOT) == c3;
  }

  /** The drop walks over the frame that ended inside a sequence and takes the first chunk with it. */
  lemma DropWalks(c: Client, live: Frame, first: Frame, second: Frame) returns (d: Client)
    requires c.maxPending == 512 && c.maxBytes == TORN_BUDGET && c.pending == TORN_BUDGET
    requires |live.payload| == 1 && |first.payload| == MAX_DATA_FRAME
    requires c.q.binary == [live, first, second] && c.q.control == []
    requires live.endsInside && live.flags == LIVE && !first.endsInside
    ensures ShedLoop(c, 1, false) == (d, true) && d.q == Shed(c.q, 2) && d.closed == c.closed
  {
    var c1 := DropFrame(c);
    d := DropFrame(c1);
    hide DropFrame;
    assert DropLive(c1) == (d, true);
    assert DropOldest(c) == (d, true);
    hide DropOldest, DropLive;
    assert !Over(d, 1);
  }

  /** The next output sheds the first chunk, and the writer sends the second. */
  lemma WalksAndSends(c: Client, live: Frame, first: Frame, second: Frame)
    requires c.version == 2 && c.maxPending == 512 && c.maxBytes == TORN_BUDGET && c.pending == TORN_BUDGET
        && !c.closed && c.tracker == Esc
    requires c.q == Queues([live, first, second], [], 3, [live, first, second], [], [])
    requires live.endsInside && live.flags == LIVE && !first.endsInside
    requires |live.payload| == 1 && |first.payload| == MAX_DATA_FRAME
    requires second.order == 3 && second.at == Some(1) && |second.payload| == 1
    ensures var d := PutData(c, 1, [68], LIVE);
      HasItems(d.q) && var q := SendNext(d).0.q;
      |q.frames| == 4 && q.frames[..3] == [live, first, second] && q.sent == [3] && |q.binary| == 1
  {
    var c0 := c.(tracker := Outside);
    var c1 := DropWalks(c0, live, first, second);
    var c2 := CountShed(c1);
    hide ShedLoop, CountShed, Run;
    assert ShedFor(c0, 1) == c2;
    hide ShedFor;
    var c3 := PutData(c, 1, [68], LIVE);
    assert c3.q.binary[0] == second && BinaryFirst(c3.q);
    assert c3.q == AddFrame(c2.q, [68], false, Some(1), LIVE);
    hide PutData;
    assert ToWire(Data(second)) != None;
    hide ToWire;
  }

  /** Output ending inside a sequence, a snapshot behind it, more output, one turn of the writer. */
  function TornRun(payload: bytes): Client {
    var c := PutData(PutData(PutData(Fresh(2, 512, TORN_BUDGET), 0, [ESC], LIVE), 1, payload, SNAPSHOT), 1, [68], LIVE);
    if HasItems(c.q) then SendNext(c).0 else c
  }

  /** Up to the third act: the escape, then both chunks. */
  lemma TornLine(payload: bytes)
    requires |payload| == MAX_DATA_FRAME + 1
    ensures var c := PutData(PutData(Fresh(2, 512, TORN_BUDGET), 0, [ESC], LIVE), 1, payload, SNAPSHOT);
      var line := [Frame(1, [ESC], true, Some(0), LIVE),
                   Frame(2, payload[..MAX_DATA_FRAME], false, Some(1), SNAPSHOT),
                   Frame(3, payload[MAX_DATA_FRAME..], false, Some(1), LAST_CHUNK)];
      && c.version == 2 && c.maxPending == 512 && c.maxBytes == TORN_BUDGET && c.pending == TORN_BUDGET && !c.closed
          && c.tracker == Esc
      && c.q == Queues(line, [], 3, line, [], [])
  {
    EscapeOpens();
    RoomQueues(Fresh(2, 512, TORN_BUDGET), 0, [ESC], LIVE);
    hide PutData, Run;
    SnapshotJoins(PutData(Fresh(2, 512, TORN_BUDGET), 0, [ESC], LIVE), 1, payload);
  }

  /** The final chunk goes out although the first never will. */
  lemma TornSnapshot(payload: bytes)
    requires |payload| == MAX_DATA_FRAME + 1
    ensures var q := TornRun(payload).q;
      InOneGroup(q.frames, 1, 2) && IsSent(q, 2) && !IsSent(q, 1) && 1 < Taken(q)
  {
    hide PutData, SendNext, Split;
    TornLine(payload);
    var c2 := PutData(PutData(Fresh(2, 512, TORN_BUDGET), 0, [ESC], LIVE), 1, payload, SNAPSHOT);
    var first, second := c2.q.binary[1], c2.q.binary[2];
    WalksAndSends(c2, c2.q.binary[0], first, second);
    var q := TornRun(payload).q;
    assert q.frames[1] == q.frames[..3][1] == first && q.frames[2] == q.frames[..3][2] == second;
  }

  // ---------------------------------------------------------------------
  // A run that resumes from the cursor of an earlier generation
  // ---------------------------------------------------------------------

  const OLD_NOTICES := [Control(1, Desync), Control(2, Attached(1, 0, 0, true, false, true))]

  /** The line of a viewer with a budget of one byte that attaches to a new session: the clear does not fit. */
  const STALE_LINE := Fresh(2, 512, 1).(
    q := Queues([], OLD_NOTICES, 2, [], OLD_NOTICES, []), droppedBytes := 11, droppedEvents := 1, noticeOpen := true)

  lemma StaleAttach(theirs: Option<int>, last: Option<int>)
    requires theirs != Some(1)
    ensures AttachV2(Fresh(2, 512, 1), Empty(1000), 1, last, theirs, None) == STALE_LINE
  {
    ClearInsideOsc(Outside);
    hide Run;
    var c := PutData(Fresh(2, 512, 1), 0, CLEAR, DISPLAY);
    assert c == STALE_LINE.(q := AddControl(EMPTY, Desync));
    hide PutData;
    assert Framed(0, Flatten([]), FrameSize(1)) == [];
    assert RawReplay(Fresh(2, 512, 1), Empty(1000)) == c;
    hide RawReplay;
  }

  /** A message goes out, and reaches the viewer. */
  lemma MessageArrives(w: World, m: Control)
    requires Shaped(w.ring) && w.conn != None && w.conn.value.q.binary == []
    requires w.conn.value.q.control != [] && w.conn.value.q.control[0] == m
    ensures Step1(w, Deliver) == w.(conn := Some(CloseBurst(TakeNext(w.conn.value))), cli := OnControl(w.cli, m.msg))
  {
    ReceivesControl(m, w.cli);
    hide OnControl, Receive, CloseBurst, TakeNext;
  }

  /** Both notices have gone out, and the burst is over. */
  const NOTICED := STALE_LINE.(q := Queues([], [], 2, [], OLD_NOTICES, [1, 2]), noticeOpen := false)

  /** The snapshot of the repair, and the message that ends it. */
  const STALE_REPAIR := NOTICED.(
    q := Queues([Frame(3, [83], false, Some(0), LAST_CHUNK)], [Control(4, Resynced(0, false))], 4,
                [Frame(3, [83], false, Some(0), LAST_CHUNK)], OLD_NOTICES + [Control(4, Resynced(0, false))], [1, 2]),
    pending := 1)

  /** A snapshot of one byte is one chunk. */
  lemma OneChunk(c: Client)
    ensures EnqueueChunks(c, Split([83]), 0, SNAPSHOT) == Enqueue(c, [83], false, Some(0), LAST_CHUNK)
  {
    assert Split([83]) == [[83]];
    hide Split;
    var chunks: seq<bytes> := [[83]];
    assert chunks[1..] == [];
    assert EnqueueChunks(Enqueue(c, [83], false, Some(0), LAST_CHUNK), [], 0, SNAPSHOT)
        == Enqueue(c, [83], false, Some(0), LAST_CHUNK);
    hide Enqueue;
  }

  /** The snapshot of the repair is in line. */
  const STALE_SHOT := NOTICED.(q := STALE_REPAIR.q.(control := [], order := 3, controls := OLD_NOTICES), pending := 1)

  lemma StaleSnapshot()
    ensures PutData(NOTICED, 0, [83], SNAPSHOT) == STALE_SHOT
  {
    OneChunk(NOTICED.(pending := 1));
    assert |Split([83])| == 1;
    hide Split, EnqueueChunks;
    assert ShedFor(NOTICED, 1) == NOTICED;
    hide ShedFor;
    var f := Frame(3, [83], false, Some(0), LAST_CHUNK);
    assert [] + [f] == [f];
  }

  lemma StaleAnswer()
    ensures PutControl(STALE_SHOT, Resynced(0, false)) == STALE_REPAIR
  {
    assert [] + [Control(4, Resynced(0, false))] == [Control(4, Resynced(0, false))];
  }

  lemma StaleOffer(r: Ring)
    requires r.endSeq == 0
    ensures Resync(NOTICED, r, None, Some([83])) == (STALE_SHOT, false)
  {
    StaleSnapshot();
    hide Resync, PutData, OfferSnapshot;
    OfferTaken(NOTICED, STALE_SHOT, [83]);
    ResyncTaken(NOTICED, STALE_SHOT, r, Some([83]));
  }

  lemma OfferTaken(c: Client, d: Client, data: bytes)
    requires data != [] && PutData(c, 0, data, SNAPSHOT) == d && d.droppedEvents == c.droppedEvents
    ensures OfferSnapshot(c, 0, Some(data)) == (d, true)
  {
    hide PutData;
  }

  lemma ResyncTaken(c: Client, d: Client, r: Ring, snap: Option<bytes>)
    requires r.endSeq == 0 && OfferSnapshot(c, 0, snap) == (d, true)
    ensures Resync(c, r, None, snap) == (d, false)
  {
    hide OfferSnapshot, PutData, PutPieces, ReplayFrames;
  }

  lemma StaleResync(w: World)
    requires w.ring == Empty(1000) && w.conn == Some(NOTICED)
    ensures Resynchronise(w, None, Some([83])).conn == Some(STALE_REPAIR)
  {
    StaleOffer(w.ring);
    StaleAnswer();
    hide Resync, PutControl, STALE_SHOT, STALE_REPAIR, NOTICED;
  }

  /** A new generation, and a viewer of the old one that attaches to it. */
  lemma Reattaches(w: World) returns (v: World)
    requires Shaped(w.ring) && w.maxBytes == 1000 && w.generation == 0 && w.cli.generation == Some(0)
    ensures v == Step1(Step1(w, Restart), Connect(512, 1, None))
    ensures v.conn == Some(STALE_LINE) && v.cli == Connected(w.cli)
    ensures v.ring == Empty(1000) && v.stream == [] && v.generation == 1 && v.maxBytes == 1000
  {
    var w1 := Step1(w, Restart);
    assert w1 == w.(generation := 1, stream := [], ring := Empty(1000), conn := None);
    StaleAttach(w.cli.generation, AttachSeq(w.cli));
    hide AttachV2, RefusedBytes;
    v := Step1(w1, Connect(512, 1, None));
  }

  /** One notice has gone out. */
  const HALF_NOTICED := STALE_LINE.(q := Queues([], [OLD_NOTICES[1]], 2, [], OLD_NOTICES, [1]))

  lemma NoticesTaken()
    ensures CloseBurst(TakeNext(STALE_LINE)) == HALF_NOTICED && CloseBurst(TakeNext(HALF_NOTICED)) == NOTICED
  {
    assert OLD_NOTICES[1..] == [OLD_NOTICES[1]] && [OLD_NOTICES[1]][1..] == [];
    assert [] + [1] == [1] && [1] + [2] == [1, 2];
    assert Take(STALE_LINE.q) == HALF_NOTICED.q;
    assert Take(HALF_NOTICED.q) == NOTICED.q;
  }

  /** It is told that its replay is incomplete. */
  lemma HearsNotices(w: World) returns (v: World)
    requires Shaped(w.ring) && w.conn == Some(STALE_LINE)
    ensures v == Step1(Step1(w, Deliver), Deliver)
    ensures v == w.(conn := Some(NOTICED), cli := OnControl(w.cli, Attached(1, 0, 0, true, false, true)))
  {
    hide Step1, CloseBurst, TakeNext;
    NoticesTaken();
    MessageArrives(w, OLD_NOTICES[0]);
    var u := Step1(w, Deliver);
    assert u == w.(conn := Some(HALF_NOTICED), cli := OnControl(w.cli, Desync));
    MessageArrives(u, OLD_NOTICES[1]);
    v := Step1(u, Deliver);
  }

  /** The repair arrives: a snapshot, and the message that it is complete. */
  lemma HearsRepair(w: World) returns (v: World)
    requires Shaped(w.ring) && w.conn == Some(STALE_REPAIR) && w.cli.lastSeq == Some(1)
    ensures v == Step1(Step1(w, Deliver), Deliver)
    ensures v == w.(conn := v.conn, cli := v.cli)
    ensures v.cli.lastSeq == Some(1) && !v.cli.awaiting && v.cli.generation == w.cli.generation
    ensures Screen(v.cli.painted) == []
  {
    var f := Frame(3, [83], false, Some(0), LAST_CHUNK);
    RepaintArrives(w.cli, f);
    hide Step1, OnFrame, Screen;
    HeadArrives(w, f);
    var u := Step1(w, Deliver);
    MessageArrives(u, Control(4, Resynced(0, false)));
    v := Step1(u, Deliver);
  }

  lemma RepaintArrives(v: Cli, f: Frame)
    requires f.at == Some(0) && f.flags == LAST_CHUNK && v.lastSeq == Some(1)
    ensures var u := OnFrame(v, Decoded(f));
      u.lastSeq == Some(1) && !u.awaiting && u.generation == v.generation && Screen(u.painted) == []
  {
    var d := Decoded(f);
    assert FlagsOf(d.flags) == f.flags;
    PaintOne(v.painted, d);
    assert OnFrame(v, d).painted == v.painted + [d];
    hide FlagBits, FlagsOf, Screen;
  }

  /** The events after the first byte was painted: a new generation, a repair, and output nobody sees. */
  function Unlucky(w: World): (v: World)
    requires Shaped(w.ring)
  {
    var told := Step1(Step1(Step1(Step1(w, Restart), Connect(512, 1, None)), Deliver), Deliver);
    var repaired := Step1(Step1(Happens(told, Mend(None, Some([83]))), Deliver), Deliver);
    Step1(Step1(repaired, Disconnect), Emit([90, 91]))
  }

  /**
    The viewer of an old generation attaches incompletely to a new one, is
    repaired, and is cut off.  It would resume at its old cursor, and the session
    would accept it: of the two bytes put out since, it would never get the first.
  */
  lemma StaleResume()
    ensures var w := Unlucky(Step1(Step1(Joined(Begin(1000)), Emit(A)), Deliver));
      && w.stream == [90, 91] && Screen(w.cli.painted) == []
      && w.cli.generation == Some(w.generation) && !w.cli.awaiting && AttachSeq(w.cli) == Some(1)
      && ResumeOk(w.ring, w.generation, AttachSeq(w.cli), w.cli.generation)
  {
    var w := FirstSteps();
    StepBudget(Step1(Step1(Begin(1000), Connect(512, 11, None)), Deliver), Deliver);
    StepBudget(Step1(Begin(1000), Connect(512, 11, None)), Deliver);
    StepBudget(Begin(1000), Connect(512, 11, None));
    hide Step1, AtRest, Screen, ResumeOk;
    var w1 := OneMore(w);
    StepBudget(Step1(w, Emit(A)), Deliver);
    StepBudget(w, Emit(A));
    EndsBadly(w1);
  }

  lemma EndsBadly(w: World)
    requires Shaped(w.ring) && w.maxBytes == 1000 && w.generation == 0
    requires w.cli.generation == Some(0) && w.cli.lastSeq == Some(1) && !w.cli.awaiting
    ensures var z := Unlucky(w);
      && z.stream == [90, 91] && Screen(z.cli.painted) == []
      && z.cli.generation == Some(z.generation) && !z.cli.awaiting && AttachSeq(z.cli) == Some(1)
      && ResumeOk(z.ring, z.generation, AttachSeq(z.cli), z.cli.generation)
  {
    hide Step1, Screen;
    var v := Reattaches(w);
    var told := HearsNotices(v);
    StaleResync(told);
    var mended := Happens(told, Mend(None, Some([83])));
    var repaired := HearsRepair(mended);
    CutOff(repaired);
  }

  lemma CutOff(w: World)
    requires Shaped(w.ring) && w.ring == Empty(1000) && w.stream == [] && w.generation == 1
    requires w.cli.generation == Some(1) && w.cli.lastSeq == Some(1) && !w.cli.awaiting
    ensures var z := Step1(Step1(w, Disconnect), Emit([90, 91]));
      && z.stream == [90, 91] && z.cli == w.cli && z.generation == 1
      && ResumeOk(z.ring, 1, AttachSeq(z.cli), z.cli.generation)
  {
    RingGrows(Empty(1000), 0, [90, 91]);
    hide Append;
  }
}
