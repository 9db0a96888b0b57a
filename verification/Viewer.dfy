/** The command-line viewer: what it paints, and how it moves its resume cursor. */
module Viewer {
  import opened Bytes
  import opened Protocol
  import opened OutboundQueues
  import opened SessionSpec

  /**
    `painted` is every frame written to the terminal, in order.  `asked` is the
    one-shot flag of the current connection: a repair has been requested.
  */
  datatype Cli = Cli(
    lastSeq: Option<int>,
    generation: Option<int>,
    awaiting: bool,
    asked: bool,
    requests: int,
    painted: seq<DataFrame>)

  const START := Cli(None, None, false, false, 0, [])

  function Raise(current: Option<int>, to: int): Option<int> {
    Some(if current == None then to else Max(current.value, to))
  }

  /** The offset sent in `attach`: none while a repair is awaited. */
  function AttachSeq(v: Cli): Option<int> {
    if v.awaiting then None else v.lastSeq
  }

  /** A new connection may ask for a repair again. */
  function Connected(v: Cli): Cli {
    v.(asked := false)
  }

  function OnFrame(v: Cli, f: DataFrame): Cli {
    var flags := FlagsOf(f.flags);
    var p := v.(painted := v.painted + [f]);
    if flags.display then p
    else if flags.snapshot then
      if flags.last then p.(lastSeq := Raise(v.lastSeq, f.at), awaiting := false) else p
    else if !v.awaiting then p.(lastSeq := Raise(v.lastSeq, f.at + |f.payload|))
    else p
  }

  function OnBytes(v: Cli, message: bytes): Cli {
    match DecodeData(message)
    case Ok(f) => OnFrame(v, f)
    case Err(_) => v
  }

  function AskRepair(v: Cli): Cli {
    if v.asked then v.(awaiting := true) else v.(awaiting := true, asked := true, requests := v.requests + 1)
  }

  function OnControl(v: Cli, msg: Msg): Cli {
    match msg
    case Attached(generation, end, _, _, _, incomplete) =>
      var g := v.(generation := Some(generation));
      if incomplete then AskRepair(g) else g.(lastSeq := Some(end), awaiting := false)
    case Gap(_, _) => AskRepair(v)
    case Resynced(at, incomplete) =>
      if incomplete then v.(awaiting := true, asked := false)
      else v.(lastSeq := Raise(v.lastSeq, at), awaiting := false, asked := false)
    case Rejected => v.(asked := true, requests := v.requests + 1)
    case Desync => v
    case Notice(_) => v
  }

  // ---------------------------------------------------------------------
  // What is on the screen
  // ---------------------------------------------------------------------

  predicate IsClear(f: DataFrame) {
    FlagsOf(f.flags).display && f.payload == CLEAR
  }

  predicate IsRepaint(f: DataFrame) {
    var flags := FlagsOf(f.flags);
    !flags.display && flags.snapshot && flags.last
  }

  /** The stream bytes painted since the last clear or completed snapshot. */
  function Screen(painted: seq<DataFrame>): bytes {
    if painted == [] then []
    else
      var f := painted[|painted| - 1];
      var flags := FlagsOf(f.flags);
      if IsClear(f) || IsRepaint(f) then []
      else if flags.display || flags.snapshot then Screen(painted[..|painted| - 1])
      else Screen(painted[..|painted| - 1]) + f.payload
  }

  /** A snapshot has begun to paint over the screen and has not been completed or cleared. */
  predicate HalfPainted(painted: seq<DataFrame>) {
    if painted == [] then false
    else
      var f := painted[|painted| - 1];
      var flags := FlagsOf(f.flags);
      if IsClear(f) || IsRepaint(f) then false
      else (!flags.display && flags.snapshot) || HalfPainted(painted[..|painted| - 1])
  }

  lemma PaintOne(painted: seq<DataFrame>, f: DataFrame)
    ensures var flags := FlagsOf(f.flags);
      && Screen(painted + [f]) ==
           (if IsClear(f) || IsRepaint(f) then []
            else if flags.display || flags.snapshot then Screen(painted)
            else Screen(painted) + f.payload)
      && HalfPainted(painted + [f]) ==
           (if IsClear(f) || IsRepaint(f) then false
            else (!flags.display && flags.snapshot) || HalfPainted(painted))
  {
    assert (painted + [f])[..|painted|] == painted;
  }

  /** The receive loop's state, updated frame by frame. */
  class RecvState {
    var lastSeq: Option<int>
    var generation: Option<int>
    var awaiting: bool
    var asked: bool
    var requests: int
    ghost var painted: seq<DataFrame>

    ghost function View(): Cli
      reads this
    {
      Cli(lastSeq, generation, awaiting, asked, requests, painted)
    }

    constructor ()
      ensures View() == START
    {
      lastSeq, generation, awaiting, asked, requests, painted := None, None, false, false, 0, [];
    }

    method Connect() returns (last: Option<int>, theirs: Option<int>)
      modifies this
      ensures View() == Connected(old(View()))
      ensures last == AttachSeq(old(View())) && theirs == generation
      ensures last == if old(awaiting) then None else old(lastSeq)
    {
      asked := false;
      last := if lastSeq != None && !awaiting then lastSeq else None;
      theirs := generation;
    }

    /** A binary message; `write` is what goes to the terminal. */
    method ReceiveBytes(message: bytes) returns (write: bytes)
      modifies this
      ensures View() == OnBytes(old(View()), message)
      ensures write == if DecodeData(message).Ok? then DecodeData(message).value.payload else []
    {
      var r := DecodeData(message);
      if r.Err? { return []; }
      var f := r.value;
      write := f.payload;
      painted := painted + [f];
      var flags := FlagsOf(f.flags);
      if flags.display { return; }
      if flags.snapshot {
        if flags.last {
          lastSeq := Some(if lastSeq == None then f.at else Max(lastSeq.value, f.at));
          awaiting := false;
        }
      } else if !awaiting {
        var end := f.at + |f.payload|;
        lastSeq := Some(if lastSeq == None then end else Max(lastSeq.value, end));
      }
    }

    /** Waits for a repair, asking for one unless this connection already has. */
    method RequestRepair()
      modifies this
      ensures View() == AskRepair(old(View()))
    {
      awaiting := true;
      if !asked {
        asked := true;
        requests := requests + 1;
      }
    }

    method ReceiveControl(msg: Msg)
      modifies this
      ensures View() == OnControl(old(View()), msg)
      ensures generation == if msg.Attached? then Some(msg.generation) else old(generation)
      ensures msg.Attached? && !msg.incomplete ==> lastSeq == Some(msg.end) && !awaiting
      ensures msg.Resynced? && !msg.resyncIncomplete ==> !awaiting && lastSeq != None && lastSeq.value >= msg.at
    {
      match msg {
        case Attached(g, end, _, _, _, incomplete) =>
          generation := Some(g);
          if incomplete {
            RequestRepair();
          } else {
            lastSeq := Some(end);
            awaiting := false;
          }
        case Gap(_, _) => RequestRepair();
        case Resynced(at, incomplete) =>
          if incomplete {
            awaiting := true;
          } else {
            lastSeq := Some(if lastSeq == None then at else Max(lastSeq.value, at));
            awaiting := false;
          }
          asked := false;
        case Rejected =>
          asked := true;
          requests := requests + 1;
        case Desync =>
        case Notice(_) =>
      }
    }
  }
}
