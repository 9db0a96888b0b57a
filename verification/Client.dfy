/** The outbound side of one viewer: it updates in place what module ClientSpec says of values. */
module Client {
  import opened Bytes
  import opened Ansi
  import opened Protocol
  import opened OutboundQueues
  import Spec = ClientSpec

  class WsClient {
    const version: int
    const maxPending: int
    const maxBytes: int
    var binary: seq<Frame>
    var control: seq<Control>
    var tracker: AnsiTracker
    var order: int
    var pending: int
    var closed: bool
    var droppedBytes: int
    var droppedEvents: int
    var noticeOpen: bool
    var gapOpen: bool
    var lostFrom: Option<int>
    var lostTo: Option<int>

    // The history of module OutboundQueues.
    ghost var frames: seq<Frame>
    ghost var controls: seq<Control>
    ghost var sent: seq<int>

    ghost function View(): Spec.Client
      reads this, tracker
    {
      Spec.Client(version, maxPending, maxBytes, Queues(binary, control, order, frames, controls, sent),
                  tracker.state, pending, closed, droppedBytes, droppedEvents, noticeOpen, gapOpen, lostFrom, lostTo)
    }

    constructor (version: int, maxPending: int, maxBytes: int)
      ensures View() == Spec.Fresh(version, maxPending, maxBytes) && fresh(tracker)
    {
      this.version, this.maxPending, this.maxBytes := version, maxPending, maxBytes;
      binary, control, order, pending, closed := [], [], 0, 0, false;
      droppedBytes, droppedEvents, noticeOpen, gapOpen, lostFrom, lostTo := 0, 0, false, false, None, None;
      frames, controls, sent := [], [], [];
      tracker := new AnsiTracker();
    }

    // -- shedding ------------------------------------------------------

    /** Takes the head frame off the queue and off the byte count. */
    method PopFrame() returns (f: Frame)
      requires binary != []
      modifies this`binary, this`pending, this`droppedBytes
      ensures f == old(binary[0])
      ensures View() == Spec.TakeHead(old(View())).(droppedBytes := old(droppedBytes) + |f.payload|)
    {
      f := binary[0];
      binary := binary[1..];
      pending := Max(0, pending - |f.payload|);
      droppedBytes := droppedBytes + |f.payload|;
    }

    /** Drops the whole remaining group of the snapshot anchored at `anchor`. */
    method DropSnapshot(anchor: int)
      modifies this
      ensures View() == Spec.DropGroup(old(View()), anchor) && tracker == old(tracker)
    {
      while binary != [] && binary[0].at == Some(anchor) && binary[0].flags.snapshot
        invariant tracker == old(tracker)
        invariant Spec.DropGroup(View(), anchor) == Spec.DropGroup(old(View()), anchor)
        decreases |binary|
      {
        ghost var v := View();
        var f := PopFrame();
        if lostFrom == None { lostFrom := Some(anchor); }
        lostTo := Some(Max(if lostTo == None then 0 else lostTo.value, anchor + |f.payload|));
        assert View() == Spec.DropChunk(v, anchor);
      }
    }

    /** Drops live frames until one of them ended outside a sequence. */
    method DropLiveFrames() returns (ok: bool)
      modifies this
      ensures (View(), ok) == Spec.DropLive(old(View())) && tracker == old(tracker)
    {
      while binary != []
        invariant tracker == old(tracker)
        invariant Spec.DropLive(View()) == Spec.DropLive(old(View()))
        decreases |binary|
      {
        ghost var v := View();
        var f := PopFrame();
        if f.at != None && !f.flags.display {
          if lostFrom == None { lostFrom := f.at; }
          lostTo := Some(f.at.value + |f.payload|);
        }
        assert View() == Spec.DropFrame(v);
        if !f.endsInside { return true; }
      }
      ok := false;
    }

    /** Evicts the oldest terminal frame(s); false when there was no safe place to stop. */
    method DropOldestBinary() returns (ok: bool)
      modifies this
      ensures (View(), ok) == Spec.DropOldest(old(View())) && tracker == old(tracker)
    {
      if binary == [] { return false; }
      if binary[0].at != None && binary[0].flags.snapshot {
        DropSnapshot(binary[0].at.value);
        return true;
      }
      ok := DropLiveFrames();
    }

    /** Gives up at least `target` bytes; returns how many went. */
    method ShedOldest(target: int) returns (went: int)
      modifies this
      ensures View() == Spec.ShedOldest(old(View()), target) && tracker == old(tracker)
      ensures went == droppedBytes - old(droppedBytes)
    {
      ghost var v0 := View();
      var before := droppedBytes;
      var ok := true;
      while ok && pending > 0 && droppedBytes - before < target
        invariant tracker == old(tracker) && tracker.state == old(tracker.state)
        invariant Spec.ShedOldestLoop(v0, target)
               == if ok then Spec.ShedOldestLoop(View(), target - (droppedBytes - before)) else View()
        decreases ok, |binary|
      {
        Spec.DropShrinks(View());
        ok := DropOldestBinary();
      }
      if droppedBytes > before {
        droppedEvents := droppedEvents + 1;
        AnnounceShed();
      }
      went := droppedBytes - before;
    }

    /** Makes room for `size` bytes by evicting the oldest terminal data. */
    method ShedFor(size: int)
      modifies this
      ensures View() == Spec.ShedFor(old(View()), size) && tracker == old(tracker)
    {
      if maxBytes <= 0 && |binary| + |control| < maxPending { return; }
      ghost var v0 := View();
      var shed := false;
      var ok := true;
      while ok && ((maxBytes > 0 && pending + size > maxBytes) || |binary| + |control| >= maxPending)
        invariant tracker == old(tracker) && tracker.state == old(tracker.state)
        invariant Spec.ShedLoop(v0, size, false) == if ok then Spec.ShedLoop(View(), size, shed) else (View(), shed)
        decreases ok, |binary|
      {
        Spec.DropShrinks(View());
        ok := DropOldestBinary();
        if ok { shed := true; }
      }
      if shed {
        droppedEvents := droppedEvents + 1;
        AnnounceShed();
      }
    }

    /** Tells the viewer, once per burst, what it lost. */
    method AnnounceShed()
      modifies this
      ensures View() == Spec.Announce(old(View())) && tracker == old(tracker)
    {
      if version >= 2 && lostFrom != None && !gapOpen {
        gapOpen := true;
        var from := lostFrom.value;
        var to := if lostTo != None then lostTo.value else from;
        lostFrom, lostTo := None, None;
        AppendControl(Gap(from, to));
      }
      if noticeOpen { return; }
      noticeOpen := true;
      AppendControl(Desync);
    }

    // -- queueing ------------------------------------------------------

    /** Queues a control message, dropping the oldest ones if there are too many. */
    method AppendControl(msg: Msg)
      modifies this
      ensures View() == Spec.PutControl(old(View()), msg) && tracker == old(tracker)
    {
      ghost var c0 := control;
      while |control| >= MAX_CONTROL_PENDING
        invariant View() == old(View()).(q := old(View()).q.(control := control)) && tracker == old(tracker)
        invariant RoomForControl(control) == RoomForControl(c0)
        decreases |control|
      {
        control := control[1..];
      }
      order := order + 1;
      control := control + [Control(order, msg)];
      controls := controls + [Control(order, msg)];
    }

    /** Counts a lost frame; `announce` says whether its range is reported. */
    method RecordDrop(at: int, size: int, announce: bool)
      modifies this
      ensures View() == Spec.RecordDrop(old(View()), at, size, announce) && tracker == old(tracker)
    {
      hide Spec.Announce;
      droppedBytes := droppedBytes + size;
      droppedEvents := droppedEvents + 1;
      if announce {
        if lostFrom == None { lostFrom := Some(at); }
        lostTo := Some(at + size);
        AnnounceShed();
      }
    }

    method AppendFrame(payload: bytes, endsInside: bool, at: Option<int>, flags: Flags)
      modifies this
      ensures View() == Spec.Enqueue(old(View()), payload, endsInside, at, flags) && tracker == old(tracker)
    {
      order := order + 1;
      var f := Frame(order, payload, endsInside, at, flags);
      binary := binary + [f];
      frames := frames + [f];
    }

    /** Queues a snapshot as one unit: all chunks or none. */
    method QueueSnapshot(at: int, payload: bytes, flags: Flags)
      modifies this
      ensures View() == Spec.QueueSnapshot(old(View()), at, payload, flags) && tracker == old(tracker)
    {
      var chunks := SplitChunks(payload);
      ShedFor(|payload|);
      if !((maxBytes <= 0 || pending + |payload| <= maxBytes) && |binary| + |control| + |chunks| <= maxPending) {
        RecordDrop(at, |payload|, false);
        return;
      }
      pending := pending + |payload|;
      ghost var v1 := View();
      assert chunks[0..] == chunks;
      for i := 0 to |chunks|
        invariant tracker == old(tracker)
        invariant Spec.EnqueueChunks(View(), chunks[i..], at, flags) == Spec.EnqueueChunks(v1, chunks, at, flags)
      {
        assert chunks[i..][1..] == chunks[i + 1..];
        AppendFrame(chunks[i], false, Some(at), if i == |chunks| - 1 then flags.(last := true) else flags);
      }
    }

    /** Queues a frame that fits the budget, once whatever has to go for it has gone. */
    method PutFitting(payload: bytes, endsInside: bool, at: Option<int>, flags: Flags, ghost before: Spec.Client)
      requires View() == before.(tracker := tracker.state) && tracker.state == Run(before.tracker, payload)
      requires endsInside == (tracker.state != Outside)
      modifies this
      ensures View() == Spec.PutFitting(before, payload, at, flags) && tracker == old(tracker)
    {
      hide Spec.ShedFor, Run;
      ShedFor(|payload|);
      pending := pending + |payload|;
      AppendFrame(payload, endsInside, at, flags);
    }

    /** Queues one sequenced frame; false, and nothing done, when the client is closed. */
    method PutData(at: int, payload: bytes, flags: Flags) returns (ok: bool)
      modifies this, tracker
      ensures ok == !old(closed) && tracker == old(tracker)
      ensures View() == if ok then Spec.PutData(old(View()), at, payload, flags) else old(View())
    {
      hide Spec.PutFitting, Spec.QueueSnapshot, Spec.Announce, Spec.PutBytes;
      if closed { return false; }
      if version < 2 {
        ok := Put(payload);
        return;
      }
      if flags.snapshot {
        QueueSnapshot(at, payload, flags);
        return true;
      }
      var endsInside := tracker.Feed(payload);
      if maxBytes > 0 && |payload| > maxBytes {
        if flags.display {
          droppedBytes := droppedBytes + |payload|;
          droppedEvents := droppedEvents + 1;
          AnnounceShed();
        } else {
          RecordDrop(at, |payload|, true);
        }
        return true;
      }
      PutFitting(payload, endsInside, Some(at), flags, old(View()));
      ok := true;
    }

    /** Queues raw bytes for the legacy endpoint. */
    method Put(item: bytes) returns (ok: bool)
      modifies this, tracker
      ensures ok == !old(closed) && tracker == old(tracker)
      ensures View() == if ok then Spec.PutBytes(old(View()), item) else old(View())
    {
      hide Spec.PutFitting, Spec.Announce;
      if closed { return false; }
      var endsInside := tracker.Feed(item);
      if maxBytes > 0 && |item| > maxBytes {
        droppedBytes := droppedBytes + |item|;
        droppedEvents := droppedEvents + 1;
        AnnounceShed();
        return true;
      }
      PutFitting(item, endsInside, None, LIVE, old(View()));
      ok := true;
    }

    /** Queues a control message unless the client is closed. */
    method PutMessage(msg: Msg) returns (ok: bool)
      modifies this
      ensures ok == !old(closed) && tracker == old(tracker)
      ensures View() == if ok then Spec.PutControl(old(View()), msg) else old(View())
    {
      if closed { return false; }
      AppendControl(msg);
      ok := true;
    }

    method Close()
      modifies this
      ensures View() == old(View()).(closed := true) && tracker == old(tracker)
    {
      closed := true;
    }

    // -- sending -------------------------------------------------------

    /** One turn of the writer with something to send. */
    method SendNext() returns (wire: Option<Spec.Wire>)
      requires binary != [] || control != []
      modifies this
      ensures (View(), wire) == Spec.SendNext(old(View())) && tracker == old(tracker)
    {
      hide Spec.ToWire;
      var useBinary := binary != [] && (control == [] || binary[0].order < control[0].order);
      if useBinary {
        var f := binary[0];
        binary := binary[1..];
        sent := sent + [f.order];
        pending := Max(0, pending - |f.payload|);
        wire := Spec.ToWire(Data(f));
      } else {
        var m := control[0];
        control := control[1..];
        sent := sent + [m.order];
        wire := Spec.ToWire(Text(m));
      }
      if wire == None {
        closed := true;
      } else if binary == [] && control == [] {
        noticeOpen, gapOpen := false, false;
      }
    }
  }

  /** The payload in pieces of at most `MAX_DATA_FRAME` bytes. */
  method SplitChunks(payload: bytes) returns (chunks: seq<bytes>)
    ensures chunks == Spec.Split(payload)
  {
    chunks := [];
    var offset := 0;
    assert payload[0..] == payload;
    while offset < |payload|
      invariant 0 <= offset <= |payload|
      invariant chunks + Spec.Split(payload[offset..]) == Spec.Split(payload)
    {
      var end := Min(offset + MAX_DATA_FRAME, |payload|);
      assert payload[offset..][..end - offset] == payload[offset..end];
      assert payload[offset..][end - offset..] == payload[end..];
      assert end == |payload| ==> payload[end..] == [] && payload[offset..] == payload[offset..end];
      assert Spec.Split(payload[offset..]) == [payload[offset..end]] + Spec.Split(payload[end..]);
      chunks := chunks + [payload[offset..end]];
      offset := end;
    }
    assert payload[offset..] == [];
  }
}
