/**
  The value held by one viewer's outbound queues, and what each operation does to it.

  `q` holds the two queues and their history; see module OutboundQueues.
*/
module ClientSpec {
  import opened Bytes
  import opened Ansi
  import opened Protocol
  import opened OutboundQueues

  datatype Client = Client(
    version: int,
    maxPending: int,
    maxBytes: int,
    q: Queues,
    tracker: State,
    pending: int,
    closed: bool,
    droppedBytes: int,
    droppedEvents: int,
    noticeOpen: bool,
    gapOpen: bool,
    lostFrom: Option<int>,
    lostTo: Option<int>)

  function Fresh(version: int, maxPending: int, maxBytes: int): Client {
    Client(version, maxPending, maxBytes, EMPTY, Outside, 0, false, 0, 0, false, false, None, None)
  }

  // ---------------------------------------------------------------------
  // Shedding
  // ---------------------------------------------------------------------

  /** Takes the head frame off the queue and off the byte count. */
  function TakeHead(c: Client): Client
    requires c.q.binary != []
  {
    c.(q := Shed(c.q, 1), pending := Max(0, c.pending - |c.q.binary[0].payload|))
  }

  predicate InGroup(f: Frame, anchor: int) {
    f.at == Some(anchor) && f.flags.snapshot
  }

  /** Drops one chunk of the snapshot anchored at `anchor`. */
  function DropChunk(c: Client, anchor: int): Client
    requires c.q.binary != []
  {
    var n := |c.q.binary[0].payload|;
    TakeHead(c).(
      droppedBytes := c.droppedBytes + n,
      lostFrom := if c.lostFrom == None then Some(anchor) else c.lostFrom,
      lostTo := Some(Max(if c.lostTo == None then 0 else c.lostTo.value, anchor + n)))
  }

  function DropGroup(c: Client, anchor: int): Client
    decreases |c.q.binary|
  {
    if c.q.binary == [] || !InGroup(c.q.binary[0], anchor) then c else DropGroup(DropChunk(c, anchor), anchor)
  }

  /** Drops one live frame; DISPLAY bytes are no loss of the stream. */
  function DropFrame(c: Client): Client
    requires c.q.binary != []
  {
    var f := c.q.binary[0];
    var c1 := TakeHead(c).(droppedBytes := c.droppedBytes + |f.payload|);
    if f.at != None && !f.flags.display then
      c1.(lostFrom := if c.lostFrom == None then f.at else c.lostFrom,
          lostTo := Some(f.at.value + |f.payload|))
    else c1
  }

  /** Drops frames until one of them ended outside a sequence. */
  function DropLive(c: Client): (Client, bool)
    decreases |c.q.binary|
  {
    if c.q.binary == [] then (c, false)
    else if !c.q.binary[0].endsInside then (DropFrame(c), true)
    else DropLive(DropFrame(c))
  }

  function DropOldest(c: Client): (Client, bool) {
    if c.q.binary == [] then (c, false)
    else if c.q.binary[0].at != None && c.q.binary[0].flags.snapshot then (DropGroup(c, c.q.binary[0].at.value), true)
    else DropLive(c)
  }

  lemma {:induction false} DropGroupShrinks(c: Client, anchor: int)
    ensures |DropGroup(c, anchor).q.binary| <= |c.q.binary|
    ensures DropGroup(c, anchor).q.control == c.q.control
    decreases |c.q.binary|
  {
    if c.q.binary != [] && InGroup(c.q.binary[0], anchor) { DropGroupShrinks(DropChunk(c, anchor), anchor); }
  }

  lemma {:induction false} DropLiveShrinks(c: Client)
    ensures DropLive(c).1 ==> |DropLive(c).0.q.binary| < |c.q.binary|
    ensures !DropLive(c).1 ==> DropLive(c).0.q.binary == []
    ensures DropLive(c).0.q.control == c.q.control
    decreases |c.q.binary|
  {
    if c.q.binary != [] && c.q.binary[0].endsInside { DropLiveShrinks(DropFrame(c)); }
  }

  /** Every drop that claims success made the queue shorter: shedding terminates. */
  lemma DropShrinks(c: Client)
    ensures DropOldest(c).1 ==> |DropOldest(c).0.q.binary| < |c.q.binary|
    ensures !DropOldest(c).1 ==> DropOldest(c).0.q.binary == []
    ensures DropOldest(c).0.q.control == c.q.control
  {
    if c.q.binary != [] {
      if c.q.binary[0].at != None && c.q.binary[0].flags.snapshot {
        DropGroupShrinks(DropChunk(c, c.q.binary[0].at.value), c.q.binary[0].at.value);
      } else {
        DropLiveShrinks(c);
      }
    }
  }

  predicate Over(c: Client, size: int) {
    (c.maxBytes > 0 && c.pending + size > c.maxBytes) || QueueLen(c.q) >= c.maxPending
  }

  function ShedLoop(c: Client, size: int, shed: bool): (Client, bool)
    decreases |c.q.binary|
  {
    if Over(c, size) then
      var (c1, ok) := DropOldest(c);
      DropShrinks(c);
      if !ok then (c1, shed) else ShedLoop(c1, size, true)
    else (c, shed)
  }

  // ---------------------------------------------------------------------
  // Control messages
  // ---------------------------------------------------------------------

  function PutControl(c: Client, msg: Msg): Client {
    c.(q := AddControl(c.q, msg))
  }

  /** Tells a v2 viewer the exact range once per burst, and any viewer that its screen is incomplete. */
  function Announce(c: Client): Client {
    var c1 :=
      if c.version >= 2 && c.lostFrom != None && !c.gapOpen then
        var to := if c.lostTo != None then c.lostTo.value else c.lostFrom.value;
        PutControl(c.(gapOpen := true, lostFrom := None, lostTo := None), Gap(c.lostFrom.value, to))
      else c;
    if c1.noticeOpen then c1 else PutControl(c1.(noticeOpen := true), Desync)
  }

  function CountShed(c: Client): Client {
    Announce(c.(droppedEvents := c.droppedEvents + 1))
  }

  /** Makes room for `size` bytes by evicting the oldest terminal data. */
  function ShedFor(c: Client, size: int): Client {
    if c.maxBytes <= 0 && QueueLen(c.q) < c.maxPending then c
    else
      var (c1, shed) := ShedLoop(c, size, false);
      if shed then CountShed(c1) else c1
  }

  function ShedOldestLoop(c: Client, target: int): Client
    decreases |c.q.binary|
  {
    if c.pending > 0 && target > 0 then
      var (c1, ok) := DropOldest(c);
      DropShrinks(c);
      if !ok then c1 else ShedOldestLoop(c1, target - (c1.droppedBytes - c.droppedBytes))
    else c
  }

  /** Gives up at least `target` bytes, if there are that many. */
  function ShedOldest(c: Client, target: int): Client {
    var c1 := ShedOldestLoop(c, target);
    if c1.droppedBytes > c.droppedBytes then CountShed(c1) else c1
  }

  // ---------------------------------------------------------------------
  // Queueing
  // ---------------------------------------------------------------------

  function RecordDrop(c: Client, at: int, size: int, announce: bool): Client {
    var c1 := c.(droppedBytes := c.droppedBytes + size, droppedEvents := c.droppedEvents + 1);
    if announce then
      Announce(c1.(lostFrom := if c.lostFrom == None then Some(at) else c.lostFrom, lostTo := Some(at + size)))
    else c1
  }

  function Enqueue(c: Client, payload: bytes, endsInside: bool, at: Option<int>, flags: Flags): Client {
    c.(q := AddFrame(c.q, payload, endsInside, at, flags))
  }

  /** A snapshot is cut into chunks of at most `MAX_DATA_FRAME` bytes. */
  function Split(payload: bytes): seq<bytes>
    decreases |payload|
  {
    if payload == [] then []
    else if |payload| <= MAX_DATA_FRAME then [payload]
    else [payload[..MAX_DATA_FRAME]] + Split(payload[MAX_DATA_FRAME..])
  }

  /** Queues the chunks of one snapshot; the last one carries LAST. */
  function EnqueueChunks(c: Client, chunks: seq<bytes>, at: int, flags: Flags): Client
    decreases |chunks|
  {
    if chunks == [] then c
    else
      var f := if |chunks| == 1 then flags.(last := true) else flags;
      EnqueueChunks(Enqueue(c, chunks[0], false, Some(at), f), chunks[1..], at, flags)
  }

  predicate SnapshotFits(c: Client, payload: bytes) {
    (c.maxBytes <= 0 || c.pending + |payload| <= c.maxBytes)
    && QueueLen(c.q) + |Split(payload)| <= c.maxPending
  }

  function QueueSnapshot(c: Client, at: int, payload: bytes, flags: Flags): Client {
    var c1 := ShedFor(c, |payload|);
    if !SnapshotFits(c1, payload) then RecordDrop(c1, at, |payload|, false)
    else EnqueueChunks(c1.(pending := c1.pending + |payload|), Split(payload), at, flags)
  }

  /** Queues one frame that fits the budget, once whatever has to go for it has gone. */
  function PutFitting(c: Client, payload: bytes, at: Option<int>, flags: Flags): Client {
    var s := Run(c.tracker, payload);
    var c1 := ShedFor(c.(tracker := s), |payload|);
    Enqueue(c1.(pending := c1.pending + |payload|), payload, s != Outside, at, flags)
  }

  /** A frame above the whole budget is lost alone; if it is stream content its range is lost too. */
  function PutOversize(c: Client, payload: bytes, at: Option<int>): Client {
    var c0 := c.(tracker := Run(c.tracker, payload));
    match at
    case None => CountShed(c0.(droppedBytes := c.droppedBytes + |payload|))
    case Some(from) => RecordDrop(c0, from, |payload|, true)
  }

  predicate Fits(c: Client, payload: bytes) {
    c.maxBytes <= 0 || |payload| <= c.maxBytes
  }

  function PutBytes(c: Client, item: bytes): Client {
    if Fits(c, item) then PutFitting(c, item, None, LIVE) else PutOversize(c, item, None)
  }

  function PutData(c: Client, at: int, payload: bytes, flags: Flags): Client {
    if c.version < 2 then PutBytes(c, payload)
    else if flags.snapshot then QueueSnapshot(c, at, payload, flags)
    else if Fits(c, payload) then PutFitting(c, payload, Some(at), flags)
    else PutOversize(c, payload, if flags.display then None else Some(at))
  }

  // ---------------------------------------------------------------------
  // Sending
  // ---------------------------------------------------------------------

  /** Takes the next item off the queues. */
  function TakeNext(c: Client): Client
    requires HasItems(c.q)
  {
    var c1 := c.(q := Take(c.q));
    if BinaryFirst(c.q) then c1.(pending := Max(0, c.pending - |c.q.binary[0].payload|)) else c1
  }

  /** A burst of shedding is over when both queues are empty. */
  function CloseBurst(c: Client): Client {
    if !HasItems(c.q) then c.(noticeOpen := false, gapOpen := false) else c
  }

  datatype Wire = Binary(data: bytes) | Json(msg: Msg)

  /** What the transport is given for an item; `None` when the frame cannot be encoded. */
  function ToWire(item: Item): Option<Wire> {
    match item
    case Text(m) => Some(Json(m.msg))
    case Data(f) =>
      if f.at == None then Some(Binary(f.payload))
      else
        match EncodeData(f.at.value, f.payload, FlagBits(f.flags))
        case Ok(b) => Some(Binary(b))
        case Err(_) => None
  }

  /** One turn of the writer with something to send. */
  function SendNext(c: Client): (Client, Option<Wire>)
    requires HasItems(c.q)
  {
    var w := ToWire(Next(c.q));
    if w == None then (TakeNext(c).(closed := true), w) else (CloseBurst(TakeNext(c)), w)
  }
}
