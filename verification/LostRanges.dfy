/**
  The pending range of lost bytes: how an eviction can forget an earlier loss
  when offsets go back, and how a range outlives the burst it was lost in.
*/
module LostRanges {
  import opened Bytes
  import opened Ansi
  import opened Protocol
  import opened OutboundQueues
  import opened ClientSpec
  import opened ClientRuns
  import opened SnapshotGroups
  import opened SessionSpec
  import opened GapCoverage

  /** A stream frame that was shed and is named in no gap yet: the pending range owes it. */
  ghost predicate Owed(q: Queues, i: int) {
    0 <= i < |q.frames| && IsStream(q.frames[i]) && !Kept(q, i) && !Announced(q.frames[i], q.controls)
  }

  /**
    A drop that does not move the pending range keeps the account of losses.
    One that does keeps it exactly when the frame ends at or beyond every owed
    one, and, unless it is announced already, begins at or beyond the range.
    The upper end is overwritten, so a frame whose offsets go back fails this.
  */
  lemma DropKeepsAccount(c: Client)
    requires Ordered(c.q) && c.q.binary != [] && Covered(c.q, c.lostFrom, c.lostTo)
    ensures var d, f := DropFrame(c), c.q.binary[0];
      Covered(d.q, d.lostFrom, d.lostTo) <==>
        (f.at == None || f.flags.display
         || ((forall i :: Owed(c.q, i) ==> End(c.q.frames[i]) <= End(f))
             && (IsStream(f) ==> Announced(f, c.q.controls) || c.lostFrom == None || c.lostFrom.value <= f.at.value)))
  {
    var d, f, t := DropFrame(c), c.q.binary[0], Taken(c.q);
    assert f == c.q.frames[t];
    HeadIsNotSent(c.q);
    hide Ordered, Announced;
    assert forall i :: 0 <= i < |c.q.frames| && i != t ==> (Kept(d.q, i) <==> Kept(c.q, i));
    assert !Kept(d.q, t) && Kept(c.q, t);
    if f.at != None && !f.flags.display {
      if Covered(d.q, d.lostFrom, d.lostTo) {
        forall i | Owed(c.q, i) ensures End(c.q.frames[i]) <= End(f) {
          assert i != t && !Kept(d.q, i);
        }
      }
    }
  }

  lemma HeadIsNotSent(q: Queues)
    requires Ordered(q) && q.binary != []
    ensures 0 <= Taken(q) < |q.frames| && !IsSent(q, Taken(q))
  {
    assert q.frames[Taken(q)] == q.binary[0];
  }

  /** Dropping a snapshot group only widens the range. */
  lemma {:induction false} GroupKeepsAccount(c: Client, anchor: int)
    requires Ordered(c.q) && Covered(c.q, c.lostFrom, c.lostTo) && anchor >= 0
    ensures var d := DropGroup(c, anchor);
      Covered(d.q, d.lostFrom, d.lostTo)
    decreases |c.q.binary|
  {
    if c.q.binary != [] && InGroup(c.q.binary[0], anchor) {
      var d, t := DropChunk(c, anchor), Taken(c.q);
      ShedKeepsOrder(c.q, 1);
      assert c.q.binary[0] == c.q.frames[t];
      hide Ordered, Announced;
      assert forall i :: 0 <= i < |c.q.frames| && i != t ==> (Kept(d.q, i) <==> Kept(c.q, i));
      GroupKeepsAccount(d, anchor);
    }
  }

  // ---------------------------------------------------------------------
  // The end of a burst
  // ---------------------------------------------------------------------

  /** An eviction that is reported leaves the range pending exactly when a gap of this burst went out already. */
  lemma ReportedRange(c: Client)
    requires c.version >= 2
    ensures CountShed(c).lostFrom == if c.gapOpen then c.lostFrom else None
  {
  }

  /** Sending says nothing of a pending range, and forgets at the end of the burst that it is owed. */
  lemma BurstForgets(c: Client)
    requires HasItems(c.q)
    ensures var d := SendNext(c).0;
      && d.lostFrom == c.lostFrom && d.lostTo == c.lostTo
      && (SendNext(c).1 != None && !HasItems(d.q) ==> !d.gapOpen && !d.noticeOpen)
  {
    hide ToWire;
  }

  // ---------------------------------------------------------------------
  // Two runs
  // ---------------------------------------------------------------------

  /** A viewer with a budget of four bytes, one live frame in line, and the tracker between sequences. */
  ghost predicate Holds(c: Client, f: Frame) {
    && c.version == 2 && c.maxPending == 512 && c.maxBytes == 4 && c.tracker == Outside && !c.closed
    && c.q.binary == [f] && c.pending == |f.payload| && |c.q.control| <= 2
    && !f.endsInside && !f.flags.snapshot && !f.flags.display && f.at != None
  }

  function Next(c: Client, at: int, payload: bytes, flags: Flags): Frame {
    Frame(c.q.order + 1, payload, false, Some(at), flags)
  }

  /** Making room takes the one frame in line and reports the loss. */
  lemma RoomForNext(c: Client, f: Frame, size: int)
    requires Holds(c, f) && |f.payload| + size > 4 >= size
    ensures ShedFor(c, size) == CountShed(DropFrame(c))
  {
    var d := DropFrame(c);
    assert d.q.binary == [] && d.pending == 0;
    assert DropOldest(c) == (d, true);
    assert ShedLoop(c, size, false) == (d, true);
    hide DropOldest, ShedLoop, Announce;
  }

  /** The next frame takes the place of the one in line. */
  lemma Replaces(c: Client, f: Frame, at: int, payload: bytes, flags: Flags)
    requires Holds(c, f) && |f.payload| + |payload| > 4 >= |payload| && !flags.snapshot && !flags.display
    requires ESC !in payload
    ensures PutData(c, at, payload, flags)
         == Enqueue(CountShed(DropFrame(c)).(pending := |payload|), payload, false, Some(at), flags)
  {
    PlainEndsOutside(payload);
    RoomForNext(c, f, |payload|);
    hide Run, ShedFor, Announce;
    assert DropFrame(c).pending == 0;
    AnnounceShape(DropFrame(c).(droppedEvents := c.droppedEvents + 1));
    hide DropFrame;
  }

  const FIRST_READ: bytes := [65, 66, 67, 68]
  const SECOND_READ: bytes := [69]
  const THIRD_READ: bytes := [70, 71, 72, 73]

  const READ1 := Frame(1, FIRST_READ, false, Some(0), LIVE)
  const READ2 := Frame(4, SECOND_READ, false, Some(4), LIVE)
  const READ3 := Frame(5, THIRD_READ, false, Some(5), LIVE)
  const NOTICES := [Control(2, Gap(0, 4)), Control(3, Desync)]

  function ThreeReads(): Client {
    PutData(PutData(PutData(Fresh(2, 512, 4), 0, FIRST_READ, LIVE), 4, SECOND_READ, LIVE), 5, THIRD_READ, LIVE)
  }

  /** The first of two reads went, and a gap was queued. */
  const TWO_READS := Client(2, 512, 4, Queues([READ2], NOTICES, 4, [READ1, READ2], NOTICES, []),
                            Outside, 1, false, 4, 1, true, true, None, None)

  /** The second went while that gap was open, and stays pending. */
  const THREE_READS := Client(2, 512, 4, Queues([READ3], NOTICES, 5, [READ1, READ2, READ3], NOTICES, []),
                              Outside, 4, false, 5, 2, true, true, Some(4), Some(5))

  const ONE_READ := Fresh(2, 512, 4).(q := Queues([READ1], [], 1, [READ1], [], []), pending := 4)

  lemma OneRead()
    ensures PutData(Fresh(2, 512, 4), 0, FIRST_READ, LIVE) == ONE_READ
  {
    PlainEndsOutside(FIRST_READ);
    hide Run;
  }

  lemma TwoReads()
    ensures PutData(PutData(Fresh(2, 512, 4), 0, FIRST_READ, LIVE), 4, SECOND_READ, LIVE) == TWO_READS
  {
    hide PutData;
    OneRead();
    Replaces(ONE_READ, READ1, 4, SECOND_READ, LIVE);
  }

  /** While the notices of a burst are open, an eviction only moves the pending range. */
  lemma ReplacesQuietly(c: Client, f: Frame, at: int, payload: bytes, flags: Flags)
    requires Holds(c, f) && |f.payload| + |payload| > 4 >= |payload| && !flags.snapshot && !flags.display
    requires ESC !in payload
    requires c.gapOpen && c.noticeOpen
    ensures var g := Next(c, at, payload, flags);
      PutData(c, at, payload, flags)
        == c.(q := c.q.(binary := [g], frames := c.q.frames + [g], order := c.q.order + 1), pending := |payload|,
              droppedBytes := c.droppedBytes + |f.payload|, droppedEvents := c.droppedEvents + 1,
              lostFrom := if c.lostFrom == None then f.at else c.lostFrom, lostTo := Some(f.at.value + |f.payload|))
  {
    Replaces(c, f, at, payload, flags);
    hide PutData;
  }

  lemma ThreeReadsLine()
    ensures ThreeReads() == THREE_READS && Holds(THREE_READS, READ3)
  {
    TwoReads();
    hide PutData;
    ReplacesQuietly(TWO_READS, READ2, 5, THIRD_READ, LIVE);
  }

  lemma Sends(c: Client)
    requires HasItems(c.q) && ToWire(OutboundQueues.Next(c.q)) != None
    ensures Do(c, SendAct) == CloseBurst(TakeNext(c))
  {
    hide ToWire;
  }

  /** Both notices have gone out; the third read is all that is in line. */
  const NOTICES_SENT := THREE_READS.(q := Queues([READ3], [], 5, [READ1, READ2, READ3], NOTICES, [2, 3]))

  lemma NoticesGo()
    ensures Do(Do(THREE_READS, SendAct), SendAct) == NOTICES_SENT
  {
    var c := THREE_READS;
    Sends(c);
    var c1 := c.(q := Queues([READ3], NOTICES[1..], 5, [READ1, READ2, READ3], NOTICES, [2]));
    assert Do(c, SendAct) == c1;
    Sends(c1);
    hide Do;
  }

  lemma LastReadGoes()
    ensures Do(NOTICES_SENT, SendAct)
         == THREE_READS.(q := Queues([], [], 5, [READ1, READ2, READ3], NOTICES, [2, 3, 5]), pending := 0,
                         gapOpen := false, noticeOpen := false)
  {
    assert ToWire(Data(READ3)) != None;
    Sends(NOTICES_SENT);
    hide Do, ToWire;
  }

  /**
    Three reads, and the writer sends all there is: both notices and the third
    read.  The burst is over, and nothing that will be sent says that the second
    read was lost.
  */
  lemma RangeOutlivesBurst()
    ensures var d := Do(Do(Do(ThreeReads(), SendAct), SendAct), SendAct);
      && !HasItems(d.q) && !d.gapOpen && !d.noticeOpen
      && d.lostFrom == Some(4) && d.lostTo == Some(5) && d.q.controls == NOTICES
      && Owed(d.q, 1)
  {
    hide Do, ThreeReads, Holds;
    ThreeReadsLine();
    NoticesGo();
    LastReadGoes();
  }

  /** The steps of a repair: the clear, which is over the budget, and the first two frames of the replay. */
  function Repair(c: Client): Client {
    PutData(PutData(PutData(c, 9, CLEAR, DISPLAY), 0, FIRST_READ, REPLAY), 4, [69, 70, 71, 72], REPLAY)
  }

  lemma ClearIsLost()
    ensures PutData(THREE_READS, 9, CLEAR, DISPLAY)
         == THREE_READS.(droppedBytes := 16, droppedEvents := 3)
  {
    ClearInsideOsc(Outside);
    hide Run, ShedFor;
  }

  const FIRST_REPLAY := Frame(6, FIRST_READ, false, Some(0), REPLAY)

  /**
    The replay evicts the third read, then its own first frame: [4, 9) becomes [4, 4), and
    two losses are forgotten.
  */
  lemma ReplayForgetsLosses()
    ensures var c, d := PutData(PutData(ThreeReads(), 9, CLEAR, DISPLAY), 0, FIRST_READ, REPLAY), Repair(ThreeReads());
      && c.lostFrom == Some(4) && c.lostTo == Some(9) && Covered(c.q, c.lostFrom, c.lostTo)
      && d.lostFrom == Some(4) && d.lostTo == Some(4) && !Covered(d.q, d.lostFrom, d.lostTo)
      && Owed(d.q, 1) && Owed(d.q, 2)
  {
    ThreeReadsLine();
    ClearIsLost();
    hide PutData;
    var b := THREE_READS.(droppedBytes := 16, droppedEvents := 3);
    ReplacesQuietly(b, READ3, 0, FIRST_READ, REPLAY);
    var c := PutData(b, 0, FIRST_READ, REPLAY);
    ReplacesQuietly(c, FIRST_REPLAY, 4, [69, 70, 71, 72], REPLAY);
    var d := PutData(c, 4, [69, 70, 71, 72], REPLAY);
    hide Holds;
    assert c.q.frames == [READ1, READ2, READ3, FIRST_REPLAY] && Taken(c.q) == 3;
    assert InGap(READ1, c.q.controls[0].msg);
    assert d.q.frames[..4] == c.q.frames && Taken(d.q) == 4;
    assert Owed(d.q, 2);
  }
}
