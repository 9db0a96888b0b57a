/** Idempotency keys: a claim before the side effect, a stored response after it. */
module Idempotency {
  const PENDING := 102

  datatype Row = Row(httpMethod: string, path: string, requestHash: string, status: int, body: string, createdAt: int)

  type Table = map<string, Row>

  datatype Request = Request(key: string, httpMethod: string, path: string, requestHash: string)

  datatype Claim = Claimed | Pending | Conflict | Done(status: int, body: string)

  /** The key was used for another request: another route, or another content where both are known. */
  predicate Differs(row: Row, r: Request) {
    || row.httpMethod != r.httpMethod || row.path != r.path
    || (r.requestHash != "" && row.requestHash != "" && row.requestHash != r.requestHash)
  }

  function ClaimKey(t: Table, r: Request, now: int, staleAfter: int): (Table, Claim) {
    if r.key !in t then (t[r.key := Row(r.httpMethod, r.path, r.requestHash, PENDING, "", now)], Claimed)
    else
      var row := t[r.key];
      if Differs(row, r) then (t, Conflict)
      else if row.status == PENDING then
        if now - row.createdAt < staleAfter then (t, Pending)
        else (t[r.key := row.(createdAt := now, requestHash := r.requestHash)], Claimed)
      else (t, Done(row.status, row.body))
  }

  function PutResponse(t: Table, r: Request, status: int, body: string, now: int): Table {
    if r.key !in t then t[r.key := Row(r.httpMethod, r.path, r.requestHash, status, body, now)]
    else
      var row := t[r.key];
      t[r.key := row.(status := status, body := body,
                      requestHash := if r.requestHash != "" then r.requestHash else row.requestHash)]
  }

  function Abort(t: Table, key: string): Table {
    if key in t && t[key].status == PENDING then t - {key} else t
  }

  function Purge(t: Table, cutoff: int): Table {
    map k | k in t && t[k].createdAt >= cutoff :: t[k]
  }

  class IdempotencyStore {
    var rows: Table

    constructor ()
      ensures rows == map[]
    {
      rows := map[];
    }

    method Claim(r: Request, now: int, staleAfter: int) returns (state: Claim)
      modifies this
      ensures (rows, state) == ClaimKey(old(rows), r, now, staleAfter)
    {
      if r.key !in rows {
        rows := rows[r.key := Row(r.httpMethod, r.path, r.requestHash, PENDING, "", now)];
        return Claimed;
      }
      var row := rows[r.key];
      if row.httpMethod != r.httpMethod || row.path != r.path { return Conflict; }
      if r.requestHash != "" && row.requestHash != "" && row.requestHash != r.requestHash { return Conflict; }
      if row.status == PENDING {
        if now - row.createdAt < staleAfter { return Pending; }
        rows := rows[r.key := row.(createdAt := now, requestHash := r.requestHash)];
        return Claimed;
      }
      state := Done(row.status, row.body);
    }

    method Put(r: Request, status: int, body: string, now: int)
      modifies this
      ensures rows == PutResponse(old(rows), r, status, body, now)
    {
      if r.key !in rows {
        rows := rows[r.key := Row(r.httpMethod, r.path, r.requestHash, status, body, now)];
      } else {
        var row := rows[r.key];
        var hash := if r.requestHash != "" then r.requestHash else row.requestHash;
        rows := rows[r.key := row.(status := status, body := body, requestHash := hash)];
      }
    }

    method AbortClaim(key: string)
      modifies this
      ensures rows == Abort(old(rows), key)
    {
      if key in rows && rows[key].status == PENDING { rows := rows - {key}; }
    }

    method PurgeOld(now: int, olderThan: int)
      modifies this
      ensures rows == Purge(old(rows), now - olderThan)
      ensures forall k :: k in rows <==> k in old(rows) && now - old(rows)[k].createdAt <= olderThan
      ensures forall k :: k in rows ==> rows[k] == old(rows)[k]
    {
      var cutoff := now - olderThan;
      rows := map k | k in rows && rows[k].createdAt >= cutoff :: rows[k];
    }
  }

  // ---------------------------------------------------------------------
  // Requests, interleaved
  // ---------------------------------------------------------------------

  /** A request in flight that holds a claim made at `since`. */
  datatype Owner = Owner(request: Request, since: int)

  /** `owners` are the requests between their claim and their response, by request number. */
  datatype System = System(staleAfter: int, now: int, rows: Table, owners: map<int, Owner>)

  /** A request that crashes leaves its claim behind. */
  datatype Step =
    | Tick(span: nat)
    | Arrive(id: int, request: Request)
    | Respond(id: int, status: int, body: string)
    | Fail(id: int)
    | Crash(id: int)
    | Sweep(olderThan: int)

  function Next(s: System, step: Step): System {
    match step
    case Tick(span) => s.(now := s.now + span)
    case Arrive(id, r) =>
      if id in s.owners then s
      else
        var (rows, state) := ClaimKey(s.rows, r, s.now, s.staleAfter);
        s.(rows := rows, owners := if state == Claimed then s.owners[id := Owner(r, s.now)] else s.owners)
    case Respond(id, status, body) =>
      if id !in s.owners then s
      else s.(rows := PutResponse(s.rows, s.owners[id].request, status, body, s.now), owners := s.owners - {id})
    case Fail(id) =>
      if id !in s.owners then s
      else s.(rows := Abort(s.rows, s.owners[id].request.key), owners := s.owners - {id})
    case Crash(id) => s.(owners := s.owners - {id})
    case Sweep(olderThan) => s.(rows := Purge(s.rows, s.now - olderThan))
  }

  function Run(staleAfter: int, steps: seq<Step>): System {
    if steps == [] then System(staleAfter, 0, map[], map[])
    else Next(Run(staleAfter, steps[..|steps| - 1]), steps[|steps| - 1])
  }

  /** No request outlives its claim; responses are not 102; sweeps spare what may still be claimed. */
  ghost predicate Timely(s: System, step: Step) {
    && (forall id :: id in s.owners ==> s.now - s.owners[id].since < s.staleAfter)
    && (step.Respond? ==> step.status != PENDING)
    && (step.Sweep? ==> step.olderThan >= s.staleAfter)
  }

  ghost predicate TimelyRun(staleAfter: int, steps: seq<Step>) {
    steps == []
    || (TimelyRun(staleAfter, steps[..|steps| - 1])
        && Timely(Run(staleAfter, steps[..|steps| - 1]), steps[|steps| - 1]))
  }

  /** A request that holds a claim holds the pending row of its key, and holds it alone. */
  ghost predicate Exclusive(s: System) {
    && (forall id :: id in s.owners ==>
          && s.owners[id].request.key in s.rows
          && s.rows[s.owners[id].request.key].status == PENDING
          && s.rows[s.owners[id].request.key].createdAt == s.owners[id].since)
    && (forall i, j :: i in s.owners && j in s.owners && s.owners[i].request.key == s.owners[j].request.key ==> i == j)
  }

  lemma StepExclusive(s: System, step: Step)
    requires Exclusive(s) && Timely(s, step)
    ensures Exclusive(Next(s, step))
  {
  }

  /** Over all interleavings of timely requests, at most one holds a key at a time. */
  lemma {:induction false} EveryKeyHasOneOwner(staleAfter: int, steps: seq<Step>)
    requires TimelyRun(staleAfter, steps)
    ensures Exclusive(Run(staleAfter, steps))
    decreases |steps|
  {
    if steps != [] {
      hide Next, Timely;
      EveryKeyHasOneOwner(staleAfter, steps[..|steps| - 1]);
      hide Exclusive;
      StepExclusive(Run(staleAfter, steps[..|steps| - 1]), steps[|steps| - 1]);
    }
  }

  /** A response is stored for this key. */
  predicate Stored(t: Table, key: string, status: int, body: string) {
    key in t && t[key].status == status && t[key].body == body
  }

  /** From here on the steps are timely and no sweep reaches the key. */
  ghost predicate Kept(s: System, key: string, steps: seq<Step>)
    decreases |steps|
  {
    steps == []
    || (Timely(s, steps[0])
        && (steps[0].Sweep? && key in s.rows ==> s.rows[key].createdAt >= s.now - steps[0].olderThan)
        && Kept(Next(s, steps[0]), key, steps[1..]))
  }

  function Continue(s: System, steps: seq<Step>): System
    decreases |steps|
  {
    if steps == [] then s else Continue(Next(s, steps[0]), steps[1..])
  }

  lemma StoredStays(s: System, step: Step, key: string, status: int, body: string)
    requires Exclusive(s) && Timely(s, step) && status != PENDING && Stored(s.rows, key, status, body)
    requires step.Sweep? ==> s.rows[key].createdAt >= s.now - step.olderThan
    ensures Stored(Next(s, step).rows, key, status, body)
  {
  }

  /** Once a response is stored, every later claim that matches replays that response, until it is purged. */
  lemma {:induction false} StoredIsReplayed(s: System, steps: seq<Step>, r: Request, status: int, body: string)
    requires Exclusive(s) && status != PENDING && Stored(s.rows, r.key, status, body) && Kept(s, r.key, steps)
    ensures var d := Continue(s, steps);
      && Stored(d.rows, r.key, status, body)
      && (!Differs(d.rows[r.key], r) ==> ClaimKey(d.rows, r, d.now, d.staleAfter) == (d.rows, Done(status, body)))
    decreases |steps|
  {
    hide Next, Exclusive, Timely;
    if steps != [] {
      StoredStays(s, steps[0], r.key, status, body);
      StepExclusive(s, steps[0]);
      StoredIsReplayed(Next(s, steps[0]), steps[1..], r, status, body);
    }
  }

  // ---------------------------------------------------------------------
  // Taking over
  // ---------------------------------------------------------------------

  /** A request arrives for a key whose live owner has outlived its claim. */
  ghost predicate OwnerIsLate(s: System, r: Request) {
    exists j :: j in s.owners && s.owners[j].request.key == r.key && r.key in s.rows
             && !Differs(s.rows[r.key], r) && s.now - s.owners[j].since >= s.staleAfter
  }

  /** One arrival makes two requests share a key exactly when the owner of the key is late. */
  lemma ArrivalShares(s: System, id: int, r: Request)
    requires Exclusive(s) && id !in s.owners
    ensures Exclusive(Next(s, Arrive(id, r))) <==> !OwnerIsLate(s, r)
  {
    var d := Next(s, Arrive(id, r));
    if OwnerIsLate(s, r) {
      var j :| j in s.owners && s.owners[j].request.key == r.key
            && !Differs(s.rows[r.key], r) && s.now - s.owners[j].since >= s.staleAfter;
      assert d.owners[id].request.key == d.owners[j].request.key;
    }
  }

  /** A claim on a key with a pending row succeeds exactly when it matches and the row is stale. */
  lemma TakeoverWhenStale(t: Table, r: Request, now: int, staleAfter: int)
    requires r.key in t && t[r.key].status == PENDING
    ensures var (u, state) := ClaimKey(t, r, now, staleAfter);
      && (state == Claimed <==> !Differs(t[r.key], r) && now - t[r.key].createdAt >= staleAfter)
      && (state == Claimed ==> u[r.key].status == PENDING && u[r.key].createdAt == now)
      && (state != Claimed ==> u == t)
  {
  }

  lemma OneStep(steps: seq<Step>, step: Step, before: System, after: System)
    requires TimelyRun(120, steps) && Run(120, steps) == before && Timely(before, step) && Next(before, step) == after
    ensures TimelyRun(120, steps + [step]) && Run(120, steps + [step]) == after
  {
    assert (steps + [step])[..|steps|] == steps;
  }

  /** A request dies; once its claim is stale the next one takes the key over, in a timely run. */
  lemma TakeoverAfterCrash(r: Request)
    ensures var steps := [] + [Arrive(1, r)] + [Crash(1)] + [Tick(120)] + [Arrive(2, r)];
      TimelyRun(120, steps) && Run(120, steps).owners == map[2 := Owner(r, 120)]
  {
    var row := Row(r.httpMethod, r.path, r.requestHash, PENDING, "", 0);
    var s0 := System(120, 0, map[], map[]);
    var s1 := System(120, 0, map[r.key := row], map[1 := Owner(r, 0)]);
    var s2 := System(120, 0, map[r.key := row], map[]);
    var s3 := System(120, 120, map[r.key := row], map[]);
    assert TimelyRun(120, []) && Run(120, []) == s0;
    assert s1.owners - {1} == s2.owners;
    hide Run, TimelyRun;
    OneStep([], Arrive(1, r), s0, s1);
    OneStep([] + [Arrive(1, r)], Crash(1), s1, s2);
    OneStep([] + [Arrive(1, r)] + [Crash(1)], Tick(120), s2, s3);
    OneStep([] + [Arrive(1, r)] + [Crash(1)] + [Tick(120)], Arrive(2, r), s3, Next(s3, Arrive(2, r)));
  }

  /** A request that outlives its claim can find itself sharing the key. */
  lemma LateRequestShares(r: Request)
    ensures var s := Run(120, [Arrive(1, r), Tick(120), Arrive(2, r)]);
      1 in s.owners && 2 in s.owners && s.owners[1].request.key == s.owners[2].request.key
  {
    var one, two, three := Arrive(1, r), Tick(120), Arrive(2, r);
    RunSnoc(120, [], one);
    RunSnoc(120, [one], two);
    RunSnoc(120, [one, two], three);
    assert [] + [one] == [one] && [one] + [two] == [one, two] && [one, two] + [three] == [one, two, three];
    var row := Row(r.httpMethod, r.path, r.requestHash, PENDING, "", 0);
    assert Run(120, [one]) == System(120, 0, map[r.key := row], map[1 := Owner(r, 0)]);
    assert Run(120, [one, two]) == System(120, 120, map[r.key := row], map[1 := Owner(r, 0)]);
    assert ClaimKey(map[r.key := row], r, 120, 120).1 == Claimed;
  }

  lemma RunSnoc(staleAfter: int, steps: seq<Step>, step: Step)
    ensures Run(staleAfter, steps + [step]) == Next(Run(staleAfter, steps), step)
  {
    assert (steps + [step])[..|steps|] == steps;
  }

  // ---------------------------------------------------------------------
  // Whose response it is
  // ---------------------------------------------------------------------

  predicate SameRoute(a: Request, b: Request) {
    a.httpMethod == b.httpMethod && a.path == b.path
  }

  predicate SameContent(a: string, b: string) {
    a == "" || b == "" || a == b
  }

  /** The four answers to a claim, and what each does to the table. */
  lemma ClaimIsExact(t: Table, r: Request, now: int, staleAfter: int)
    ensures var (u, state) := ClaimKey(t, r, now, staleAfter);
      && (state == Conflict <==>
            r.key in t && (t[r.key].httpMethod != r.httpMethod || t[r.key].path != r.path
                           || (t[r.key].requestHash != "" && r.requestHash != ""
                               && t[r.key].requestHash != r.requestHash)))
      && (state != Claimed ==> u == t)
      && (state == Claimed ==>
            u == t[r.key := Row(r.httpMethod, r.path, r.requestHash, PENDING,
                                if r.key in t then t[r.key].body else "", now)]
            && (r.key in t ==> t[r.key].status == PENDING && now - t[r.key].createdAt >= staleAfter))
      && (state.Done? ==> r.key in t && t[r.key].status == state.status != PENDING && t[r.key].body == state.body)
      && (state == Pending ==> r.key in t && t[r.key].status == PENDING && now - t[r.key].createdAt < staleAfter)
  {
  }

  /** A response fills its row in: time and route stay, and the content hash gives way to a known one only. */
  lemma PutIsExact(t: Table, r: Request, status: int, body: string, now: int)
    ensures var u := PutResponse(t, r, status, body, now);
      && u.Keys == t.Keys + {r.key} && u - {r.key} == t - {r.key}
      && u[r.key].status == status && u[r.key].body == body
      && (r.requestHash != "" ==> u[r.key].requestHash == r.requestHash)
      && (r.key in t ==> u[r.key].createdAt == t[r.key].createdAt && u[r.key].httpMethod == t[r.key].httpMethod
                         && u[r.key].path == t[r.key].path
                         && (r.requestHash == "" ==> u[r.key].requestHash == t[r.key].requestHash))
      && (r.key !in t ==>
            u[r.key].createdAt == now && u[r.key].httpMethod == r.httpMethod && u[r.key].path == r.path)
  {
  }

  /** A response goes to the row of its own route, if the row is there. */
  ghost predicate Routed(s: System, step: Step) {
    step.Respond? && step.id in s.owners ==>
      && step.status != PENDING
      && var q := s.owners[step.id].request;
         q.key in s.rows ==> s.rows[q.key].httpMethod == q.httpMethod && s.rows[q.key].path == q.path
  }

  ghost predicate RoutedRun(staleAfter: int, steps: seq<Step>) {
    steps == []
    || (RoutedRun(staleAfter, steps[..|steps| - 1])
        && Routed(Run(staleAfter, steps[..|steps| - 1]), steps[|steps| - 1]))
  }

  /** Step `n` is the response to request `q`. */
  ghost predicate Answers(staleAfter: int, steps: seq<Step>, n: nat, q: Request, status: int, body: string) {
    && n < |steps|
    && var s := Run(staleAfter, steps[..n]);
    && steps[n].Respond? && steps[n].status == status && steps[n].body == body
    && steps[n].id in s.owners && s.owners[steps[n].id].request == q
  }

  /** What a finished row says of the request that answered it. */
  ghost predicate RowIsOf(key: string, row: Row, q: Request) {
    && q.key == key && q.httpMethod == row.httpMethod && q.path == row.path
    && (q.requestHash == "" || q.requestHash == row.requestHash)
  }

  lemma AnswersEarlier(staleAfter: int, steps: seq<Step>, n: nat, q: Request, status: int, body: string)
    requires steps != [] && Answers(staleAfter, steps[..|steps| - 1], n, q, status, body)
    ensures Answers(staleAfter, steps, n, q, status, body)
  {
    assert steps[..|steps| - 1][..n] == steps[..n];
  }

  /** Every finished row holds the response given to a request of its own route. */
  lemma {:induction false} FinishedRows(staleAfter: int, steps: seq<Step>, key: string) returns (n: nat, q: Request)
    requires RoutedRun(staleAfter, steps)
    ensures var rows := Run(staleAfter, steps).rows;
      key in rows && rows[key].status != PENDING ==>
        RowIsOf(key, rows[key], q) && Answers(staleAfter, steps, n, q, rows[key].status, rows[key].body)
    decreases |steps|
  {
    n, q := 0, Request("", "", "", "");
    var rows := Run(staleAfter, steps).rows;
    if key in rows && rows[key].status != PENDING {
      var last := |steps| - 1;
      var s, step := Run(staleAfter, steps[..last]), steps[last];
      if step.Respond? && step.id in s.owners && s.owners[step.id].request.key == key {
        n, q := last, s.owners[step.id].request;
      } else {
        RowStays(s, step, key);
        n, q := FinishedRows(staleAfter, steps[..last], key);
        hide Run;
        AnswersEarlier(staleAfter, steps, n, q, rows[key].status, rows[key].body);
      }
    }
  }

  /** Only a response to its key finishes a row. */
  lemma RowStays(s: System, step: Step, key: string)
    requires key in Next(s, step).rows && Next(s, step).rows[key].status != PENDING
    requires !(step.Respond? && step.id in s.owners && s.owners[step.id].request.key == key)
    ensures key in s.rows && Next(s, step).rows[key] == s.rows[key]
  {
  }

  /**
    Whenever a claim is answered with a stored response, that response was given
    earlier to a request of the same key, method and path, whose content agrees
    where both are known.
  */
  lemma ReplayedIsOwn(staleAfter: int, steps: seq<Step>, r: Request) returns (n: nat, q: Request)
    requires RoutedRun(staleAfter, steps)
    ensures var s := Run(staleAfter, steps);
      var state := ClaimKey(s.rows, r, s.now, staleAfter).1;
      state.Done? ==>
        && Answers(staleAfter, steps, n, q, state.status, state.body)
        && q.key == r.key && SameRoute(q, r) && SameContent(q.requestHash, r.requestHash)
  {
    hide Run, Answers;
    n, q := FinishedRows(staleAfter, steps, r.key);
    ClaimIsExact(Run(staleAfter, steps).rows, r, Run(staleAfter, steps).now, staleAfter);
  }

  /** The row of a key in hand is of the route of the request that holds it. */
  ghost predicate OwnRows(s: System) {
    forall id :: id in s.owners && s.owners[id].request.key in s.rows ==>
      var q := s.owners[id].request;
      s.rows[q.key].httpMethod == q.httpMethod && s.rows[q.key].path == q.path
  }

  lemma StepOwnRows(s: System, step: Step)
    requires Exclusive(s) && OwnRows(s) && Timely(s, step)
    ensures OwnRows(Next(s, step)) && Routed(s, step)
  {
  }

  lemma {:induction false} TimelyIsRouted(staleAfter: int, steps: seq<Step>)
    requires TimelyRun(staleAfter, steps)
    ensures RoutedRun(staleAfter, steps) && OwnRows(Run(staleAfter, steps))
    decreases |steps|
  {
    if steps != [] {
      hide Next, Timely, Exclusive, OwnRows, Routed;
      var before := steps[..|steps| - 1];
      TimelyIsRouted(staleAfter, before);
      EveryKeyHasOneOwner(staleAfter, before);
      StepOwnRows(Run(staleAfter, before), steps[|steps| - 1]);
    }
  }

  /** In a timely run a replayed response is always the request's own. */
  lemma TimelyReplays(staleAfter: int, steps: seq<Step>, r: Request) returns (n: nat, q: Request)
    requires TimelyRun(staleAfter, steps)
    ensures var s := Run(staleAfter, steps);
      var state := ClaimKey(s.rows, r, s.now, staleAfter).1;
      state.Done? ==>
        && Answers(staleAfter, steps, n, q, state.status, state.body)
        && q.key == r.key && SameRoute(q, r) && SameContent(q.requestHash, r.requestHash)
  {
    hide Answers, Run;
    TimelyIsRouted(staleAfter, steps);
    n, q := ReplayedIsOwn(staleAfter, steps, r);
  }

  /** A response that finds the row of another route answers that route with it from then on. */
  lemma StrayResponse(s: System, id: int, status: int, body: string) returns (r: Request)
    requires id in s.owners && status != PENDING && !Routed(s, Respond(id, status, body))
    ensures var d := Next(s, Respond(id, status, body));
      r.key == s.owners[id].request.key && !SameRoute(r, s.owners[id].request)
      && ClaimKey(d.rows, r, d.now, d.staleAfter).1 == Done(status, body)
  {
    var q := s.owners[id].request;
    r := Request(q.key, s.rows[q.key].httpMethod, s.rows[q.key].path, "");
  }

  /**
    A late request outlives its claim, the one that took over fails, another route
    claims the key, and the late response is stored as the answer of that route.
  */
  lemma LateResponseStrays()
    ensures var a := Request("k", "POST", "/a", "");
      var b := Request("k", "POST", "/b", "");
      var s := Run(120, [Arrive(1, a), Tick(120), Arrive(2, a), Fail(2), Arrive(3, b), Respond(1, 201, "of a")]);
      ClaimKey(s.rows, b, s.now, 120).1 == Done(201, "of a")
  {
    var a := Request("k", "POST", "/a", "");
    var b := Request("k", "POST", "/b", "");
    var pending := Row("POST", "/a", "", PENDING, "", 0);
    var s0 := System(120, 0, map[], map[]);
    var s1 := System(120, 0, map["k" := pending], map[1 := Owner(a, 0)]);
    var s2 := s1.(now := 120);
    var s3 := System(120, 120, map["k" := pending.(createdAt := 120)], map[1 := Owner(a, 0), 2 := Owner(a, 120)]);
    var s4 := System(120, 120, map[], map[1 := Owner(a, 0)]);
    var row := Row("POST", "/b", "", PENDING, "", 120);
    var s5 := System(120, 120, map["k" := row], map[1 := Owner(a, 0), 3 := Owner(b, 120)]);
    var s6 := System(120, 120, map["k" := row.(status := 201, body := "of a")], map[3 := Owner(b, 120)]);
    assert Next(s0, Arrive(1, a)) == s1;
    assert Next(s1, Tick(120)) == s2;
    assert Next(s2, Arrive(2, a)) == s3;
    assert Next(s3, Fail(2)) == s4 by { assert s3.owners - {2} == s4.owners; }
    assert Next(s4, Arrive(3, b)) == s5;
    assert Next(s5, Respond(1, 201, "of a")) == s6 by { assert s5.owners - {1} == s6.owners; }
    SixSteps(120, Arrive(1, a), Tick(120), Arrive(2, a), Fail(2), Arrive(3, b), Respond(1, 201, "of a"));
  }

  lemma SixSteps(staleAfter: int, a: Step, b: Step, c: Step, d: Step, e: Step, f: Step)
    ensures Run(staleAfter, [a, b, c, d, e, f])
         == Next(Next(Next(Next(Next(Next(System(staleAfter, 0, map[], map[]), a), b), c), d), e), f)
  {
    hide Next;
    assert [a, b, c, d, e, f][..5] == [a, b, c, d, e];
    assert [a, b, c, d, e][..4] == [a, b, c, d];
    assert [a, b, c, d][..3] == [a, b, c];
    assert [a, b, c][..2] == [a, b];
    assert [a, b][..1] == [a];
    assert [a][..0] == [];
    assert Run(staleAfter, []) == System(staleAfter, 0, map[], map[]);
    assert Run(staleAfter, [a]) == Next(Run(staleAfter, []), a);
    assert Run(staleAfter, [a, b]) == Next(Run(staleAfter, [a]), b);
    assert Run(staleAfter, [a, b, c]) == Next(Run(staleAfter, [a, b]), c);
    assert Run(staleAfter, [a, b, c, d]) == Next(Run(staleAfter, [a, b, c]), d);
    assert Run(staleAfter, [a, b, c, d, e]) == Next(Run(staleAfter, [a, b, c, d]), e);
  }

  // ---------------------------------------------------------------------
  // Letting go
  // ---------------------------------------------------------------------

  /** After a failure the next request for the key is the first again; a finished row is not given up. */
  lemma FailureFreesTheKey(s: System, id: int, r: Request)
    requires Exclusive(s) && id in s.owners && s.owners[id].request.key == r.key
    ensures var d := Next(s, Fail(id));
      ClaimKey(d.rows, r, d.now, d.staleAfter).1 == Claimed
      && d.rows == s.rows - {r.key}
  {
  }
}
