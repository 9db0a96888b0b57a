/**
  The two outbound queues of a viewer and the single history they share.

  `frames`, `controls` and `sent` are that history: every terminal frame and
  every control message ever queued, and the order numbers that went out.
*/
module OutboundQueues {
  import opened Bytes
  import opened Protocol

  const MAX_CONTROL_PENDING := 128

  /** A queued terminal frame; `at` is `None` for the legacy endpoint. */
  datatype Frame = Frame(order: int, payload: bytes, endsInside: bool, at: Option<int>, flags: Flags)

  datatype Msg =
    | Gap(from: int, to: int)
    | Desync
    | Attached(generation: int, end: int, base: int, snapshotRequired: bool, snapshotApplied: bool, incomplete: bool)
    | Resynced(at: int, resyncIncomplete: bool)
    | Rejected
    | Notice(tag: int)

  datatype Control = Control(order: int, msg: Msg)

  datatype Item = Data(frame: Frame) | Text(control: Control)

  datatype Queues = Queues(
    binary: seq<Frame>,
    control: seq<Control>,
    order: int,
    frames: seq<Frame>,
    controls: seq<Control>,
    sent: seq<int>)

  const EMPTY := Queues([], [], 0, [], [], [])

  function QueueLen(q: Queues): int {
    |q.binary| + |q.control|
  }

  predicate HasItems(q: Queues) {
    q.binary != [] || q.control != []
  }

  /** Evicts the `n` oldest terminal frames. */
  function Shed(q: Queues, n: nat): Queues
    requires n <= |q.binary|
  {
    q.(binary := q.binary[n..])
  }

  /** The control queue with its oldest messages dropped until one more fits. */
  function RoomForControl(control: seq<Control>): (r: seq<Control>)
    ensures |r| < MAX_CONTROL_PENDING
  {
    if |control| >= MAX_CONTROL_PENDING then RoomForControl(control[1..]) else control
  }

  function AddControl(q: Queues, msg: Msg): Queues {
    var m := Control(q.order + 1, msg);
    q.(control := RoomForControl(q.control) + [m], order := q.order + 1, controls := q.controls + [m])
  }

  function AddFrame(q: Queues, payload: bytes, endsInside: bool, at: Option<int>, flags: Flags): Queues {
    var f := Frame(q.order + 1, payload, endsInside, at, flags);
    q.(binary := q.binary + [f], order := q.order + 1, frames := q.frames + [f])
  }

  /** Whichever queue holds the lower order number goes first. */
  predicate BinaryFirst(q: Queues) {
    q.binary != [] && (q.control == [] || q.binary[0].order < q.control[0].order)
  }

  function Next(q: Queues): Item
    requires HasItems(q)
  {
    if BinaryFirst(q) then Data(q.binary[0]) else Text(q.control[0])
  }

  function TakeFrame(q: Queues): Queues
    requires q.binary != []
  {
    q.(binary := q.binary[1..], sent := q.sent + [q.binary[0].order])
  }

  function TakeControl(q: Queues): Queues
    requires q.control != []
  {
    q.(control := q.control[1..], sent := q.sent + [q.control[0].order])
  }

  function Take(q: Queues): Queues
    requires HasItems(q)
  {
    if BinaryFirst(q) then TakeFrame(q) else TakeControl(q)
  }

  // ---------------------------------------------------------------------
  // Order
  // ---------------------------------------------------------------------

  /** How many terminal frames have left the queue, sent or shed. */
  function Taken(q: Queues): int {
    |q.frames| - |q.binary|
  }

  function TakenControls(q: Queues): int {
    |q.controls| - |q.control|
  }

  /** The two queues hold the most recent part of what was ever queued. */
  ghost predicate Suffixes(q: Queues) {
    && 0 <= Taken(q) && q.binary == q.frames[Taken(q)..]
    && 0 <= TakenControls(q) && q.control == q.controls[TakenControls(q)..]
  }

  /** Order numbers record arrival: each is used once and they only grow. */
  ghost predicate Arrival(order: int, frames: seq<Frame>, controls: seq<Control>) {
    && order >= 0
    && (forall i :: 0 <= i < |frames| ==> 1 <= frames[i].order <= order)
    && (forall i :: 0 <= i < |controls| ==> 1 <= controls[i].order <= order)
    && (forall i, j :: 0 <= i < j < |frames| ==> frames[i].order < frames[j].order)
    && (forall i, j :: 0 <= i < j < |controls| ==> controls[i].order < controls[j].order)
    && (forall i, j :: 0 <= i < |frames| && 0 <= j < |controls| ==> frames[i].order != controls[j].order)
  }

  ghost predicate WasQueued(frames: seq<Frame>, controls: seq<Control>, order: int) {
    || (exists i :: 0 <= i < |frames| && frames[i].order == order)
    || (exists j :: 0 <= j < |controls| && controls[j].order == order)
  }

  /** The wire carries queued items only, in the order of their arrival, and is ahead of the queues. */
  ghost predicate WireInOrder(q: Queues) {
    && (forall i, j :: 0 <= i < j < |q.sent| ==> q.sent[i] < q.sent[j])
    && (forall i :: 0 <= i < |q.sent| ==> WasQueued(q.frames, q.controls, q.sent[i]))
    && (forall i, j :: 0 <= i < |q.sent| && 0 <= j < |q.binary| ==> q.sent[i] < q.binary[j].order)
    && (forall i, j :: 0 <= i < |q.sent| && 0 <= j < |q.control| ==> q.sent[i] < q.control[j].order)
  }

  ghost predicate Ordered(q: Queues) {
    Suffixes(q) && Arrival(q.order, q.frames, q.controls) && WireInOrder(q)
  }

  lemma SentAreOld(q: Queues, i: nat)
    requires Ordered(q) && i < |q.sent|
    ensures 1 <= q.sent[i] <= q.order
  {
    assert WasQueued(q.frames, q.controls, q.sent[i]);
  }

  lemma ShedKeepsOrder(q: Queues, n: nat)
    requires Ordered(q) && n <= |q.binary|
    ensures Ordered(Shed(q, n))
  {
    var d := Shed(q, n);
    assert d.binary == q.frames[Taken(q) + n..];
    assert forall j :: 0 <= j < |d.binary| ==> d.binary[j] == q.binary[n + j];
    forall i | 0 <= i < |d.sent| ensures WasQueued(d.frames, d.controls, d.sent[i]) {
      assert WasQueued(q.frames, q.controls, q.sent[i]);
    }
  }

  lemma {:induction false} RoomIsSuffix(control: seq<Control>)
    ensures var r := RoomForControl(control);
      |r| <= |control| && r == control[|control| - |r|..]
  {
    if |control| >= MAX_CONTROL_PENDING { RoomIsSuffix(control[1..]); }
  }

  lemma StillQueued(frames: seq<Frame>, controls: seq<Control>, f: seq<Frame>, m: seq<Control>, order: int)
    requires WasQueued(frames, controls, order)
    ensures WasQueued(frames + f, controls + m, order)
  {
    if i :| 0 <= i < |frames| && frames[i].order == order {
      assert (frames + f)[i].order == order;
    } else {
      var j :| 0 <= j < |controls| && controls[j].order == order;
      assert (controls + m)[j].order == order;
    }
  }

  lemma AddControlKeepsOrder(q: Queues, msg: Msg)
    requires Ordered(q)
    ensures Ordered(AddControl(q, msg))
  {
    var d := AddControl(q, msg);
    var r := RoomForControl(q.control);
    RoomIsSuffix(q.control);
    hide WasQueued;
    assert Suffixes(d);
    forall i | 0 <= i < |d.sent| ensures WasQueued(d.frames, d.controls, d.sent[i]) && d.sent[i] <= q.order {
      SentAreOld(q, i);
      StillQueued(q.frames, q.controls, [], [Control(q.order + 1, msg)], q.sent[i]);
      assert q.frames + [] == q.frames;
    }
    assert forall j :: 0 <= j < |r| ==> d.control[j] == q.control[|q.control| - |r| + j];
  }

  lemma AddFrameKeepsOrder(q: Queues, payload: bytes, endsInside: bool, at: Option<int>, flags: Flags)
    requires Ordered(q)
    ensures Ordered(AddFrame(q, payload, endsInside, at, flags))
  {
    var d := AddFrame(q, payload, endsInside, at, flags);
    assert Suffixes(d);
    forall i | 0 <= i < |d.sent| ensures WasQueued(d.frames, d.controls, d.sent[i]) && d.sent[i] <= q.order {
      SentAreOld(q, i);
      StillQueued(q.frames, q.controls, [d.frames[|q.frames|]], [], q.sent[i]);
      assert q.controls + [] == q.controls;
    }
  }

  /** The head of the terminal queue arrived before everything behind it in either queue. */
  lemma HeadFrameIsOldest(q: Queues)
    requires Ordered(q) && BinaryFirst(q)
    ensures WasQueued(q.frames, q.controls, q.binary[0].order)
    ensures forall j :: 1 <= j < |q.binary| ==> q.binary[0].order < q.binary[j].order
    ensures forall j :: 0 <= j < |q.control| ==> q.binary[0].order < q.control[j].order
  {
    assert forall j :: 0 <= j < |q.binary| ==> q.binary[j] == q.frames[Taken(q) + j];
    assert forall j :: 0 <= j < |q.control| ==> q.control[j] == q.controls[TakenControls(q) + j];
  }

  lemma HeadControlIsOldest(q: Queues)
    requires Ordered(q) && HasItems(q) && !BinaryFirst(q)
    ensures WasQueued(q.frames, q.controls, q.control[0].order)
    ensures forall j :: 1 <= j < |q.control| ==> q.control[0].order < q.control[j].order
    ensures forall j :: 0 <= j < |q.binary| ==> q.control[0].order < q.binary[j].order
  {
    assert forall j :: 0 <= j < |q.binary| ==> q.binary[j] == q.frames[Taken(q) + j];
    assert forall j :: 0 <= j < |q.control| ==> q.control[j] == q.controls[TakenControls(q) + j];
  }

  lemma SentStayQueued(q: Queues, d: Queues)
    requires WireInOrder(q) && q.frames == d.frames && q.controls == d.controls
    requires |d.sent| == |q.sent| + 1 && d.sent[..|q.sent|] == q.sent
        && WasQueued(q.frames, q.controls, d.sent[|q.sent|])
    ensures forall i :: 0 <= i < |d.sent| ==> WasQueued(d.frames, d.controls, d.sent[i])
  {
    forall i | 0 <= i < |d.sent| ensures WasQueued(d.frames, d.controls, d.sent[i]) {
      if i < |q.sent| { assert d.sent[i] == q.sent[i]; }
      assert WasQueued(q.frames, q.controls, d.sent[i]);
    }
  }

  lemma TakeFrameKeepsOrder(q: Queues)
    requires Ordered(q) && BinaryFirst(q)
    ensures Ordered(TakeFrame(q))
  {
    HeadFrameIsOldest(q);
    hide Arrival, WasQueued;
    var d := TakeFrame(q);
    assert Suffixes(d) by { assert d.binary == d.frames[Taken(d)..]; }
    SentStayQueued(q, d);
    assert forall j :: 0 <= j < |d.binary| ==> d.binary[j] == q.binary[j + 1];
  }

  lemma TakeControlKeepsOrder(q: Queues)
    requires Ordered(q) && HasItems(q) && !BinaryFirst(q)
    ensures Ordered(TakeControl(q))
  {
    HeadControlIsOldest(q);
    hide Arrival, WasQueued;
    var d := TakeControl(q);
    assert Suffixes(d) by { assert d.control == d.controls[TakenControls(d)..]; }
    SentStayQueued(q, d);
    assert forall j :: 0 <= j < |d.control| ==> d.control[j] == q.control[j + 1];
  }
}
