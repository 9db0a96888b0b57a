/** The session: its scrollback, its viewers, and the steps taken under its lock. */
module Session {
  import opened Bytes
  import opened Protocol
  import opened OutboundQueues
  import Spec = ClientSpec
  import opened SessionSpec
  import opened RingSpec
  import opened Scrollback
  import opened Client
  import ClientRuns

  datatype AttachResult = AttachedOk | Gone | Full

  class TermSession {
    const generation: int
    const maxClients: int
    const scrollback: Scrollback
    var clients: set<WsClient>
    var closed: bool
    var muted: bool

    /** The viewers and the scrollback share no tracker. */
    ghost predicate Valid()
      reads this, scrollback, clients
    {
      && scrollback.Valid()
      && (forall c :: c in clients ==> c.tracker != scrollback.tracker)
      && (forall c, d :: c in clients && d in clients && c != d ==> c.tracker != d.tracker)
    }

    constructor (generation: int, maxClients: int, maxBytes: int)
      requires maxBytes > 0
      ensures Valid() && clients == {} && !closed && !muted && scrollback.View() == Empty(maxBytes)
      ensures fresh(scrollback) && fresh(scrollback.tracker)
      ensures this.generation == generation && this.maxClients == maxClients
    {
      this.generation, this.maxClients := generation, maxClients;
      scrollback := new Scrollback(maxBytes);
      clients, closed, muted := {}, false, false;
    }

    /**
      Attaches a viewer with an exact resume, a snapshot or a cleared replay.
      A viewer that is already closed is not left registered.
    */
    method AttachV2(client: WsClient, last: Option<int>, theirs: Option<int>, snap: Option<bytes>)
        returns (res: AttachResult)
      requires Valid() && client !in clients
      requires client.tracker != scrollback.tracker && forall c :: c in clients ==> c.tracker != client.tracker
      modifies this`clients, client, client.tracker
      ensures Valid() && client.tracker == old(client.tracker)
      ensures res == (if closed then Gone
                      else if maxClients > 0 && |old(clients)| >= maxClients then Full
                      else if old(client.closed) then Gone else AttachedOk)
      ensures res != AttachedOk ==> clients == old(clients) && client.View() == old(client.View())
      ensures res == AttachedOk ==>
        && clients == old(clients) + {client}
        && client.View() == SessionSpec.AttachV2(old(client.View()), scrollback.View(), generation, last, theirs, snap)
    {
      hide SessionSpec.AttachV2;
      if closed { return Gone; }
      if maxClients > 0 && |clients| >= maxClients { return Full; }
      if client.closed { return Gone; }
      FillLine(client, last, theirs, snap);
      clients := clients + {client};
      res := AttachedOk;
    }

    /** Queues the replay and the `attached` message for an open viewer. */
    method FillLine(client: WsClient, last: Option<int>, theirs: Option<int>, snap: Option<bytes>)
      requires client.tracker != scrollback.tracker && !client.closed
      modifies client, client.tracker
      ensures client.tracker == old(client.tracker)
      ensures client.View()
          == SessionSpec.AttachV2(old(client.View()), scrollback.View(), generation, last, theirs, snap)
    {
      hide OfferSnapshot, PutPieces, Spec.PutData, RawReplay, Replay.Since, Spec.PutControl;
      var base := scrollback.endSeq - scrollback.size;
      var resume := last != None && theirs == Some(generation)
                    && last.value <= scrollback.endSeq && last.value >= base;
      var applied := false;
      if !resume { applied := OfferScreen(client, snap); }
      var before := client.droppedEvents;
      if !applied {
        if resume {
          var since := scrollback.Since(last.value);
          if since != None { PutAll(client, since.value, REPLAY); }
        } else {
          ClearAndReplay(client);
        }
      }
      var incomplete := client.droppedEvents > before;
      var _ := client.PutMessage(Attached(generation, scrollback.endSeq, base, !resume, applied, incomplete));
    }

    /** Offers a rendered screen to an open viewer; false when there is none or it was refused. */
    method OfferScreen(client: WsClient, snap: Option<bytes>) returns (applied: bool)
      requires client.tracker != scrollback.tracker && !client.closed
      modifies client, client.tracker
      ensures client.tracker == old(client.tracker) && !client.closed
      ensures (client.View(), applied) == OfferSnapshot(old(client.View()), scrollback.endSeq, snap)
      ensures client.View().maxBytes == old(client.View()).maxBytes
    {
      hide Spec.PutData;
      applied := false;
      if snap != None && snap.value != [] {
        var before := client.droppedEvents;
        ClientRuns.PutDataIdentity(client.View(), scrollback.endSeq, snap.value, SNAPSHOT);
        var _ := client.PutData(scrollback.endSeq, snap.value, SNAPSHOT);
        applied := client.droppedEvents == before;
      }
    }

    /** Clears an open viewer's screen and replays the whole buffer. */
    method ClearAndReplay(client: WsClient)
      requires client.tracker != scrollback.tracker && !client.closed
      modifies client, client.tracker
      ensures client.tracker == old(client.tracker) && !client.closed
      ensures client.View() == RawReplay(old(client.View()), scrollback.View())
    {
      hide Spec.PutData, Replay.ReplayFrames;
      var frames := scrollback.ReplayFramesWithSeq(ReplayTarget(client.maxBytes));
      ClientRuns.PutDataIdentity(client.View(), scrollback.endSeq, CLEAR, DISPLAY);
      var _ := client.PutData(scrollback.endSeq, CLEAR, DISPLAY);
      PutAll(client, frames, REPLAY);
    }

    /** Repairs one viewer's screen in place; `None` when the session or the viewer is gone. */
    method Resync(client: WsClient, last: Option<int>, snap: Option<bytes>) returns (incomplete: Option<bool>)
      requires Valid() && client.tracker != scrollback.tracker
      modifies client, client.tracker
      ensures client.tracker == old(client.tracker)
      ensures incomplete == None <==> closed || old(client.closed)
      ensures if incomplete == None then client.View() == old(client.View())
              else
                var r := SessionSpec.Resync(old(client.View()), scrollback.View(), last, snap);
                (client.View(), incomplete.value) == r
    {
      hide OfferSnapshot, Spec.PutData, Replay.ReplayFrames, PutPieces;
      if closed || client.closed { return None; }
      var applied := OfferScreen(client, snap);
      if applied { return Some(false); }
      ClientRuns.PutDataIdentity(client.View(), scrollback.endSeq, CLEAR, DISPLAY);
      var _ := client.PutData(scrollback.endSeq, CLEAR, DISPLAY);
      var frames := scrollback.ReplayFramesWithSeq(ReplayTarget(client.maxBytes));
      var before := client.droppedEvents;
      PutAll(client, frames, REPLAY);
      var missingHead := last != None && last.value < scrollback.endSeq - scrollback.size;
      incomplete := Some(missingHead || client.droppedEvents > before);
    }

    /**
      Appends `data` and delivers it to every viewer; viewers that are closed, or
      whose share is known to be revoked, are dropped, the latter without the
      data.  Muted output is display-only: it is delivered, not appended.
    */
    method Broadcast(data: bytes, revoked: set<WsClient>) returns (start: int)
      requires Valid()
      modifies this`clients, scrollback, scrollback.tracker, clients, set c | c in clients :: c.tracker
      ensures Valid() && start == old(scrollback.endSeq)
      ensures scrollback.View() == if muted then old(scrollback.View())
          else RingSpec.Append(old(scrollback.View()), data)
      ensures clients == set c | c in old(clients) && c !in revoked && !old(c.closed)
      ensures forall c :: c in old(clients) ==> c.tracker == old(c.tracker)
      ensures forall c :: c in old(clients) ==>
        c.View() == if c in revoked || old(c.closed) then old(c.View())
                    else Spec.PutData(old(c.View()), start, data, if muted then DISPLAY else LIVE)
    {
      hide Spec.PutData, RingSpec.Append;
      if muted {
        start := scrollback.endSeq;
      } else {
        start := scrollback.Append(data);
      }
      clients := DeliverAll(clients - revoked, start, data, if muted then DISPLAY else LIVE);
    }

    method Detach(client: WsClient)
      requires Valid()
      modifies this`clients
      ensures Valid() && clients == old(clients) - {client}
    {
      clients := clients - {client};
    }
  }

  /** Offers one frame to every viewer; returns those that took it. */
  method DeliverAll(targets: set<WsClient>, at: int, data: bytes, flags: Flags) returns (alive: set<WsClient>)
    requires forall c, d :: c in targets && d in targets && c != d ==> c.tracker != d.tracker
    modifies targets, set c | c in targets :: c.tracker
    ensures alive == set c | c in targets && !old(c.closed)
    ensures forall c :: c in targets ==> c.tracker == old(c.tracker)
    ensures forall c :: c in targets ==>
      c.View() == if old(c.closed) then old(c.View()) else Spec.PutData(old(c.View()), at, data, flags)
  {
    hide Spec.PutData;
    var todo := targets;
    alive := {};
    while todo != {}
      invariant todo <= targets
      invariant alive == set c | c in targets && c !in todo && !old(c.closed)
      invariant forall c :: c in targets ==> c.tracker == old(c.tracker)
      invariant forall c :: c in todo ==> c.View() == old(c.View())
      invariant forall c :: c in targets && c !in todo ==>
        c.View() == if old(c.closed) then old(c.View()) else Spec.PutData(old(c.View()), at, data, flags)
      decreases todo
    {
      var c :| c in todo;
      var ok := c.PutData(at, data, flags);
      if ok { alive := alive + {c}; }
      todo := todo - {c};
    }
  }

  /** Queues the pieces in order on an open client. */
  method PutAll(client: WsClient, pieces: seq<Piece>, flags: Flags)
    requires !client.closed
    modifies client, client.tracker
    ensures client.tracker == old(client.tracker)
    ensures client.View() == PutPieces(old(client.View()), pieces, flags)
    ensures !client.closed
  {
    hide Spec.PutData;
    assert pieces[0..] == pieces;
    for i := 0 to |pieces|
      invariant client.tracker == old(client.tracker) && !client.closed
      invariant PutPieces(client.View(), pieces[i..], flags) == PutPieces(old(client.View()), pieces, flags)
    {
      assert pieces[i..][1..] == pieces[i + 1..];
      ClientRuns.PutDataIdentity(client.View(), pieces[i].at, pieces[i].data, flags);
      var _ := client.PutData(pieces[i].at, pieces[i].data, flags);
    }
  }

  /** Queueing closes nothing. */
}
