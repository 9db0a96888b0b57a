/** When the viewer asks for a repair, and when it waits for one. */
module Requests {
  import opened Protocol
  import opened OutboundQueues
  import opened ClientSpec
  import opened Viewer
  import opened Resume

  /** The viewer after these messages, in order. */
  function Heard(v: Cli, ms: seq<Wire>): Cli {
    if ms == [] then v else Receive(Heard(v, ms[..|ms| - 1]), ms[|ms| - 1])
  }

  // ---------------------------------------------------------------------
  // Kinds of message
  // ---------------------------------------------------------------------

  /** Bytes are missing: a gap, or a replay that was itself shed. */
  predicate TellsLoss(w: Wire) {
    w.Json? && (w.msg.Gap? || (w.msg.Attached? && w.msg.incomplete))
  }

  predicate Rejects(w: Wire) {
    w.Json? && w.msg.Rejected?
  }

  /** The answer to a repair request. */
  predicate Answers(w: Wire) {
    w.Json? && w.msg.Resynced?
  }

  predicate AnswersIncomplete(w: Wire) {
    Answers(w) && w.msg.resyncIncomplete
  }

  /** The last chunk of a screen. */
  predicate CompletesScreen(w: Wire) {
    w.Binary? && DecodeData(w.data).Ok? && IsRepaint(DecodeData(w.data).value)
  }

  /** The viewer has what it waits for. */
  predicate Settles(w: Wire) {
    || CompletesScreen(w)
    || (w.Json? && w.msg.Attached? && !w.msg.incomplete)
    || (Answers(w) && !w.msg.resyncIncomplete)
  }

  // ---------------------------------------------------------------------
  // Requests
  // ---------------------------------------------------------------------

  /** Among the first `n` messages a loss or a rejection has not been answered. */
  predicate Outstanding(ms: seq<Wire>, n: nat)
    requires n <= |ms|
  {
    exists i :: 0 <= i < n && (TellsLoss(ms[i]) || Rejects(ms[i])) && forall j :: i < j < n ==> !Answers(ms[j])
  }

  /** Message `i` makes the viewer ask: a rejection always, a loss unless a request is outstanding. */
  predicate Asks(ms: seq<Wire>, i: nat)
    requires i < |ms|
  {
    Rejects(ms[i]) || (TellsLoss(ms[i]) && !Outstanding(ms, i))
  }

  function Asking(ms: seq<Wire>): set<nat> {
    set i: nat | i < |ms| && Asks(ms, i)
  }

  lemma OutstandingSnoc(ms: seq<Wire>, n: nat)
    requires n < |ms|
    ensures Outstanding(ms, n + 1)
       <==> TellsLoss(ms[n]) || Rejects(ms[n]) || (Outstanding(ms, n) && !Answers(ms[n]))
  {
    if Outstanding(ms, n) && !Answers(ms[n]) {
      var i :| 0 <= i < n && (TellsLoss(ms[i]) || Rejects(ms[i])) && forall j :: i < j < n ==> !Answers(ms[j]);
      assert forall j :: i < j < n + 1 ==> !Answers(ms[j]);
    }
  }

  lemma OutstandingPrefix(ms: seq<Wire>, k: nat, n: nat)
    requires n <= k <= |ms|
    ensures Outstanding(ms[..k], n) == Outstanding(ms, n)
  {
    if Outstanding(ms, n) {
      var i :| 0 <= i < n && (TellsLoss(ms[i]) || Rejects(ms[i])) && forall j :: i < j < n ==> !Answers(ms[j]);
      assert ms[..k][i] == ms[i];
    }
    if Outstanding(ms[..k], n) {
      var i :| 0 <= i < n && (TellsLoss(ms[..k][i]) || Rejects(ms[..k][i]))
              && forall j :: i < j < n ==> !Answers(ms[..k][j]);
      assert ms[..k][i] == ms[i];
      assert forall j :: i < j < n ==> ms[..k][j] == ms[j];
    }
  }

  lemma AskingSnoc(ms: seq<Wire>)
    requires ms != []
    ensures var n := |ms| - 1;
      |Asking(ms)| == |Asking(ms[..n])| + if Asks(ms, n) then 1 else 0
  {
    var n := |ms| - 1;
    forall i: nat | i < n ensures Asks(ms[..n], i) == Asks(ms, i) {
      OutstandingPrefix(ms, n, i);
    }
    hide Asks;
    assert Asking(ms) == Asking(ms[..n]) + if Asks(ms, n) then {n} else {};
  }

  /**
    Over every list of messages on one connection: a request is outstanding
    exactly when a loss or a rejection has not been answered since, and the
    requests sent are counted by the messages that make the viewer ask.
  */
  lemma {:induction false} RequestsAreCounted(v: Cli, ms: seq<Wire>)
    ensures var d := Heard(Connected(v), ms);
      && (d.asked <==> Outstanding(ms, |ms|))
      && d.requests == v.requests + |Asking(ms)|
    decreases |ms|
  {
    if ms != [] {
      var n := |ms| - 1;
      RequestsAreCounted(v, ms[..n]);
      OutstandingPrefix(ms, n, n);
      OutstandingSnoc(ms, n);
      AskingSnoc(ms);
      hide Asking, Outstanding, DecodeData;
    } else {
      assert Asking(ms) == {};
    }
  }

  /** Without an answer or a rejection, any number of losses makes one request. */
  lemma OneRequest(v: Cli, ms: seq<Wire>)
    requires forall i :: 0 <= i < |ms| ==> !Answers(ms[i]) && !Rejects(ms[i])
    ensures Heard(Connected(v), ms).requests
         == v.requests + if exists i :: 0 <= i < |ms| && TellsLoss(ms[i]) then 1 else 0
  {
    RequestsAreCounted(v, ms);
    if i :| 0 <= i < |ms| && TellsLoss(ms[i]) {
      var first := FirstLoss(ms, i);
      forall j: nat | j < |ms| ensures Asks(ms, j) <==> j == first {
        if j > first { assert Outstanding(ms, j); }
      }
      assert Asking(ms) == {first};
    } else {
      assert Asking(ms) == {};
    }
  }

  lemma {:induction false} FirstLoss(ms: seq<Wire>, i: nat) returns (first: nat)
    requires i < |ms| && TellsLoss(ms[i])
    ensures first < |ms| && TellsLoss(ms[first]) && forall j :: 0 <= j < first ==> !TellsLoss(ms[j])
    decreases i
  {
    first := i;
    if j :| 0 <= j < i && TellsLoss(ms[j]) { first := FirstLoss(ms, j); }
  }

  // ---------------------------------------------------------------------
  // Waiting
  // ---------------------------------------------------------------------

  /** The viewer waits after `k` messages, and nothing settles it afterwards. */
  predicate WaitsSince(v: Cli, ms: seq<Wire>, k: nat)
    requires k <= |ms|
  {
    && (if k == 0 then v.awaiting else TellsLoss(ms[k - 1]) || AnswersIncomplete(ms[k - 1]))
    && forall j :: k <= j < |ms| ==> !Settles(ms[j])
  }

  predicate Unsettled(v: Cli, ms: seq<Wire>) {
    exists k: nat :: k <= |ms| && WaitsSince(v, ms, k)
  }

  lemma WaitsSinceSnoc(v: Cli, ms: seq<Wire>, k: nat)
    requires ms != [] && k < |ms|
    ensures WaitsSince(v, ms, k) <==> WaitsSince(v, ms[..|ms| - 1], k) && !Settles(ms[|ms| - 1])
  {
    hide TellsLoss, AnswersIncomplete, Settles;
    var n := |ms| - 1;
    assert forall j :: 0 <= j < n ==> ms[..n][j] == ms[j];
  }

  lemma UnsettledSnoc(v: Cli, ms: seq<Wire>)
    requires ms != []
    ensures var n := |ms| - 1;
      Unsettled(v, ms)
      <==> TellsLoss(ms[n]) || AnswersIncomplete(ms[n]) || (Unsettled(v, ms[..n]) && !Settles(ms[n]))
  {
    var n := |ms| - 1;
    forall k: nat | k <= n ensures WaitsSince(v, ms, k) <==> WaitsSince(v, ms[..n], k) && !Settles(ms[n]) {
      WaitsSinceSnoc(v, ms, k);
    }
    assert WaitsSince(v, ms, |ms|) <==> TellsLoss(ms[n]) || AnswersIncomplete(ms[n]);
    hide WaitsSince, TellsLoss, AnswersIncomplete, Settles;
  }

  lemma AwaitingSnoc(v: Cli, w: Wire)
    ensures Receive(v, w).awaiting <==> TellsLoss(w) || AnswersIncomplete(w) || (v.awaiting && !Settles(w))
  {
  }

  /** The viewer waits exactly while something unsettled has been heard. */
  lemma {:induction false} AwaitingIsUnsettled(v: Cli, ms: seq<Wire>)
    ensures Heard(Connected(v), ms).awaiting <==> Unsettled(v, ms)
    decreases |ms|
  {
    if ms != [] {
      AwaitingIsUnsettled(v, ms[..|ms| - 1]);
      UnsettledSnoc(v, ms);
      AwaitingSnoc(Heard(Connected(v), ms[..|ms| - 1]), ms[|ms| - 1]);
      hide Unsettled, Receive, TellsLoss, AnswersIncomplete, Settles;
    } else {
      assert WaitsSince(v, ms, 0) <==> v.awaiting;
    }
  }

  /** While it waits, only what settles the wait moves the cursor. */
  lemma {:induction false} FrozenWhileAwaiting(v: Cli, ms: seq<Wire>)
    requires v.awaiting && forall j :: 0 <= j < |ms| ==> !Settles(ms[j])
    ensures Heard(Connected(v), ms).lastSeq == v.lastSeq && Heard(Connected(v), ms).awaiting
    decreases |ms|
  {
    if ms != [] {
      FrozenWhileAwaiting(v, ms[..|ms| - 1]);
    }
  }

  /** A message that neither tells a loss nor answers, rejects or settles anything. */
  predicate Idle(w: Wire) {
    !TellsLoss(w) && !Rejects(w) && !Answers(w) && !Settles(w)
  }

  /** After `k` messages the viewer waits without having asked, and nothing of note follows. */
  predicate ForgottenSince(v: Cli, ms: seq<Wire>, k: nat)
    requires k <= |ms|
  {
    (if k == 0 then v.awaiting else AnswersIncomplete(ms[k - 1])) && forall j :: k <= j < |ms| ==> Idle(ms[j])
  }

  predicate Forgotten(v: Cli, ms: seq<Wire>) {
    exists k: nat :: k <= |ms| && ForgottenSince(v, ms, k)
  }

  lemma ForgottenSnoc(v: Cli, ms: seq<Wire>)
    requires ms != []
    ensures var n := |ms| - 1;
      Forgotten(v, ms) <==> AnswersIncomplete(ms[n]) || (Forgotten(v, ms[..n]) && Idle(ms[n]))
  {
    var n := |ms| - 1;
    forall k: nat | k <= n ensures ForgottenSince(v, ms, k) <==> ForgottenSince(v, ms[..n], k) && Idle(ms[n]) {
      hide Idle, AnswersIncomplete;
      assert forall j :: 0 <= j < n ==> ms[..n][j] == ms[j];
    }
    assert ForgottenSince(v, ms, |ms|) <==> AnswersIncomplete(ms[n]);
    hide ForgottenSince, Idle, AnswersIncomplete;
  }

  lemma UnaskedSnoc(v: Cli, w: Wire)
    ensures var d := Receive(v, w);
      d.awaiting && !d.asked <==> AnswersIncomplete(w) || (v.awaiting && !v.asked && Idle(w))
  {
  }

  /**
    The viewer waits for a repair that it has not asked for exactly when nothing of
    note has been heard since an incomplete repair, or since it connected waiting.
  */
  lemma {:induction false} WaitsUnasked(v: Cli, ms: seq<Wire>)
    ensures var d := Heard(Connected(v), ms); d.awaiting && !d.asked <==> Forgotten(v, ms)
    decreases |ms|
  {
    if ms != [] {
      WaitsUnasked(v, ms[..|ms| - 1]);
      ForgottenSnoc(v, ms);
      UnaskedSnoc(Heard(Connected(v), ms[..|ms| - 1]), ms[|ms| - 1]);
      hide Forgotten, Receive, AnswersIncomplete, Idle;
    } else {
      assert ForgottenSince(v, ms, 0) <==> v.awaiting;
    }
  }
}
