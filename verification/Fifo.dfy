/** The two outbound queues, read by order number, are one first-in first-out queue. */
module Fifo {
  import opened Bytes
  import opened Protocol
  import opened OutboundQueues

  /** What the writer will emit, in order, if nothing more is queued or shed. */
  function Merge(binary: seq<Frame>, control: seq<Control>): seq<Item>
    decreases |binary| + |control|
  {
    if binary == [] && control == [] then []
    else if binary != [] && (control == [] || binary[0].order < control[0].order) then
      [Data(binary[0])] + Merge(binary[1..], control)
    else [Text(control[0])] + Merge(binary, control[1..])
  }

  function Waiting(q: Queues): seq<Item> {
    Merge(q.binary, q.control)
  }

  /** The item taken is the head of the line, and the rest stays in order. */
  lemma TakeIsDequeue(q: Queues)
    requires Ordered(q) && HasItems(q)
    ensures Waiting(q) == [Next(q)] + Waiting(Take(q)) && Ordered(Take(q))
  {
    hide Ordered;
    if BinaryFirst(q) { TakeFrameKeepsOrder(q); } else { TakeControlKeepsOrder(q); }
  }

  lemma {:induction false} MergeAddFrame(binary: seq<Frame>, control: seq<Control>, f: Frame)
    requires forall j :: 0 <= j < |control| ==> control[j].order < f.order
    ensures Merge(binary + [f], control) == Merge(binary, control) + [Data(f)]
    decreases |binary| + |control|
  {
    var b := binary + [f];
    if binary == [] && control == [] {
      assert b[1..] == [];
    } else if binary != [] && (control == [] || binary[0].order < control[0].order) {
      MergeAddFrame(binary[1..], control, f);
      assert b[1..] == binary[1..] + [f];
    } else {
      MergeAddFrame(binary, control[1..], f);
    }
  }

  lemma {:induction false} MergeAddControl(binary: seq<Frame>, control: seq<Control>, m: Control)
    requires forall j :: 0 <= j < |binary| ==> binary[j].order < m.order
    ensures Merge(binary, control + [m]) == Merge(binary, control) + [Text(m)]
    decreases |binary| + |control|
  {
    var c := control + [m];
    if binary == [] && control == [] {
      assert c[1..] == [];
    } else if binary != [] && (control == [] || binary[0].order < control[0].order) {
      MergeAddControl(binary[1..], control, m);
    } else {
      MergeAddControl(binary, control[1..], m);
      assert c[1..] == control[1..] + [m];
    }
  }

  /** A terminal frame joins the end of the line. */
  lemma AddFrameIsEnqueue(q: Queues, payload: bytes, endsInside: bool, at: Option<int>, flags: Flags)
    requires Ordered(q)
    ensures Waiting(AddFrame(q, payload, endsInside, at, flags))
         == Waiting(q) + [Data(Frame(q.order + 1, payload, endsInside, at, flags))]
  {
    MergeAddFrame(q.binary, q.control, Frame(q.order + 1, payload, endsInside, at, flags));
  }

  /** The line without the first control message in it. */
  function WithoutFirstText(items: seq<Item>): seq<Item> {
    if items == [] then []
    else if items[0].Text? then items[1..]
    else [items[0]] + WithoutFirstText(items[1..])
  }

  lemma {:induction false} MergeDropControl(binary: seq<Frame>, control: seq<Control>)
    requires control != [] && forall i, j :: 0 <= i < j < |control| ==> control[i].order < control[j].order
    ensures Merge(binary, control[1..]) == WithoutFirstText(Merge(binary, control))
    decreases |binary|
  {
    if binary != [] && binary[0].order < control[0].order {
      var c := control[1..];
      assert c != [] ==> c[0] == control[1] && control[0].order < control[1].order;
      MergeDropControl(binary[1..], control);
      assert Merge(binary, c) == [Data(binary[0])] + Merge(binary[1..], c);
    }
  }

  /** So does a control message; when there are too many, the oldest one leaves the line for it. */
  lemma AddControlIsEnqueue(q: Queues, msg: Msg)
    requires Ordered(q) && |q.control| <= 128
    ensures Waiting(AddControl(q, msg))
         == (if |q.control| == 128 then WithoutFirstText(Waiting(q)) else Waiting(q))
            + [Text(Control(q.order + 1, msg))]
  {
    var room := RoomForControl(q.control);
    if |q.control| == 128 {
      MergeDropControl(q.binary, q.control);
      assert RoomForControl(q.control[1..]) == q.control[1..];
    }
    MergeAddControl(q.binary, room, Control(q.order + 1, msg));
  }
}
