/** What the session puts in a viewer's queues when it attaches, resynchronises or broadcasts. */
module SessionSpec {
  import opened Bytes
  import opened Ansi
  import opened Protocol
  import opened OutboundQueues
  import opened ClientSpec
  import opened RingSpec
  import opened Replay

  /** ESC [ 0 m, ESC [ 2 J, ESC [ H: eleven bytes that clear the screen. */
  const CLEAR: bytes := [0x1B, 0x5B, 0x30, 0x6D, 0x1B, 0x5B, 0x32, 0x4A, 0x1B, 0x5B, 0x48]

  /** How big a replay frame may be for a client with this byte budget. */
  function ReplayTarget(budget: int): int {
    if budget <= 0 then 65536 else Max(1, Min(65536, budget))
  }

  function PutPieces(c: Client, pieces: seq<Piece>, flags: Flags): Client
    decreases |pieces|
  {
    if pieces == [] then c
    else PutPieces(PutData(c, pieces[0].at, pieces[0].data, flags), pieces[1..], flags)
  }

  /** The viewer's offset belongs to this stream and is still held. */
  predicate ResumeOk(r: Ring, generation: int, last: Option<int>, theirs: Option<int>) {
    last != None && theirs == Some(generation) && last.value <= r.endSeq && last.value >= Base(r)
  }

  /** The rendered screen of a snapshot provider, if it has one. */
  predicate HasScreen(snap: Option<bytes>) {
    snap != None && snap.value != []
  }

  /** Offers the snapshot; false when the client's bounds refused it. */
  function OfferSnapshot(c: Client, end: int, snap: Option<bytes>): (Client, bool) {
    if !HasScreen(snap) then (c, false)
    else
      var d := PutData(c, end, snap.value, SNAPSHOT);
      (d, d.droppedEvents == c.droppedEvents)
  }

  function RawReplay(c: Client, r: Ring): Client {
    PutPieces(PutData(c, r.endSeq, CLEAR, DISPLAY), ReplayFrames(r, ReplayTarget(c.maxBytes)), REPLAY)
  }

  /** Exact resume, a screen snapshot, or a cleared raw replay; then `attached`. */
  function AttachV2(c: Client, r: Ring, generation: int, last: Option<int>, theirs: Option<int>,
      snap: Option<bytes>): Client {
    var resume := ResumeOk(r, generation, last, theirs);
    var (c1, applied) := if resume then (c, false) else OfferSnapshot(c, r.endSeq, snap);
    var c2 :=
      if applied then c1
      else if resume then
        match Since(r, last.value)
        case Some(pieces) => PutPieces(c1, pieces, REPLAY)
        case None => c1
      else RawReplay(c1, r);
    PutControl(c2, Attached(generation, r.endSeq, Base(r), !resume, applied, c2.droppedEvents > c1.droppedEvents))
  }

  /** A repair in place: a snapshot, or a cleared raw replay; the flag says it is incomplete. */
  function Resync(c: Client, r: Ring, last: Option<int>, snap: Option<bytes>): (Client, bool) {
    var (c1, applied) := OfferSnapshot(c, r.endSeq, snap);
    if applied then (c1, false)
    else
      var c2 := PutData(c1, r.endSeq, CLEAR, DISPLAY);
      var c3 := PutPieces(c2, ReplayFrames(r, ReplayTarget(c1.maxBytes)), REPLAY);
      (c3, (last != None && last.value < Base(r)) || c3.droppedEvents > c2.droppedEvents)
  }

  lemma ClearBegins(s: State)
    ensures Run(s, CLEAR[..4]) == if s == Osc || s == OscSt then Osc else Outside
  {
    RunSnoc(s, CLEAR, 0);
    RunSnoc(s, CLEAR, 1);
    RunSnoc(s, CLEAR, 2);
    RunSnoc(s, CLEAR, 3);
  }

  /** The clear leaves the parser inside a sequence exactly when it is read as the text of an OSC string. */
  lemma ClearInsideOsc(s: State)
    ensures Run(s, CLEAR) == if s == Osc || s == OscSt then Osc else Outside
  {
    ClearBegins(s);
    hide Run;
    RunSnoc(s, CLEAR, 4);
    RunSnoc(s, CLEAR, 5);
    RunSnoc(s, CLEAR, 6);
    RunSnoc(s, CLEAR, 7);
    RunSnoc(s, CLEAR, 8);
    RunSnoc(s, CLEAR, 9);
    RunSnoc(s, CLEAR, 10);
    assert CLEAR[..11] == CLEAR;
  }
}
