/** The short-lived cache of resolved login tokens, and why a revoked user is never served from it. */
module AuthCache {
  import opened Bytes

  /**
    A resolved user.  `readAt` says which state of the database it was read
    from: the number of mutations committed by then.
  */
  datatype User = User(id: int, readAt: int)

  datatype Entry = Entry(deadline: int, tokenExpiry: int, user: Option<User>)

  datatype Lookup = Miss | Hit(user: Option<User>)

  /** The cache proper: token hashes to entries, and the invalidation epoch. */
  datatype Cache = Cache(entries: map<int, Entry>, epoch: int)

  /** `a` holds only what `b` holds. */
  ghost predicate Within(a: map<int, Entry>, b: map<int, Entry>) {
    forall t :: t in a ==> t in b && a[t] == b[t]
  }

  predicate BelongsTo(e: Entry, userId: int) {
    e.user != None && e.user.value.id == userId
  }

  function WithoutUser(entries: map<int, Entry>, userId: int): map<int, Entry> {
    map t | t in entries && !BelongsTo(entries[t], userId) :: entries[t]
  }

  class AuthCache {
    const ttl: int
    const maxEntries: int
    var entries: map<int, Entry>
    var epoch: int

    ghost function View(): Cache
      reads this
    {
      Cache(entries, epoch)
    }

    constructor (ttl: int, maxEntries: int)
      ensures View() == Cache(map[], 0) && this.ttl == ttl && this.maxEntries == maxEntries
    {
      this.ttl, this.maxEntries, entries, epoch := ttl, maxEntries, map[], 0;
    }

    /** The cached user, `None` for a token known to be bad, or a miss; stale entries go. */
    method Get(token: int, nowMono: int, nowWall: int) returns (res: Lookup)
      modifies this`entries
      ensures res.Hit? <==> token in old(entries) && nowMono < old(entries)[token].deadline
                            && nowWall < old(entries)[token].tokenExpiry
      ensures res.Hit? ==> res.user == old(entries)[token].user && entries == old(entries)
      ensures res.Miss? ==> entries == old(entries) - {token}
    {
      if token !in entries { return Miss; }
      var e := entries[token];
      if nowMono >= e.deadline || nowWall >= e.tokenExpiry {
        entries := entries - {token};
        return Miss;
      }
      res := Hit(e.user);
    }

    /**
      Records a resolution, unless a revocation came in between; false is the
      error of a cache without room for any entry.
    */
    method Put(token: int, user: Option<User>, tokenExpiry: int, atEpoch: Option<int>, nowMono: int) returns (ok: bool)
      modifies this`entries
      ensures atEpoch != None && atEpoch.value != epoch ==> ok && entries == old(entries)
      ensures atEpoch == None || atEpoch.value == epoch ==>
        && ok == (maxEntries > 0)
        && (!ok ==> entries == map[])
        && (ok ==> entries == (old(entries) - (old(entries).Keys - entries.Keys))[
                     token := Entry(nowMono + ttl, tokenExpiry, user)])
        && (|old(entries)| < maxEntries ==> old(entries).Keys <= entries.Keys)
        && (ok ==> Spared(old(entries), entries, token, nowMono, maxEntries))
      ensures |old(entries)| <= maxEntries ==> |entries| <= maxEntries
    {
      var entry := Entry(nowMono + ttl, tokenExpiry, user);
      if atEpoch != None && atEpoch.value != epoch { return true; }
      ghost var before := entries;
      if |entries| >= maxEntries {
        ok := Evict(nowMono);
        if !ok { return; }
      }
      WrittenBack(entries, before, token, entry);
      SizeWritten(entries, token, entry);
      entries := entries[token := entry];
      ok := true;
    }

    method InvalidateToken(token: int)
      modifies this
      ensures View() == Cache(old(entries) - {token}, old(epoch) + 1)
    {
      epoch := epoch + 1;
      entries := entries - {token};
    }

    method InvalidateUser(userId: Option<int>)
      modifies this
      ensures View() == Cache(if userId == None then old(entries) else WithoutUser(old(entries), userId.value),
                              old(epoch) + 1)
      ensures forall t :: t in entries <==>
        t in old(entries) && (userId == None || old(entries)[t].user == None
                              || old(entries)[t].user.value.id != userId.value)
    {
      epoch := epoch + 1;
      if userId == None { return; }
      entries := WithoutUser(entries, userId.value);
    }

    method Clear()
      modifies this
      ensures View() == Cache(map[], old(epoch) + 1)
    {
      epoch := epoch + 1;
      entries := map[];
    }

    /**
      Drops expired entries, then the oldest ones for as long as the cache is
      full: what goes without having expired is no younger than anything that
      stays, and goes only if there is then room for just one entry.  A cache
      without room for any entry fails once it is empty.
    */
    method Evict(nowMono: int) returns (ok: bool)
      modifies this`entries
      ensures ok == (maxEntries > 0)
      ensures !ok ==> entries == map[]
      ensures Within(entries, old(entries)) && (ok ==> |entries| < maxEntries)
      ensures forall t :: t in entries ==> nowMono < entries[t].deadline
      ensures forall t :: t in old(entries) && t !in entries && nowMono < old(entries)[t].deadline ==>
        && (forall s :: s in entries ==> old(entries)[t].deadline <= entries[s].deadline)
        && (ok ==> |entries| == maxEntries - 1)
    {
      entries := map t | t in entries && nowMono < entries[t].deadline :: entries[t];
      while |entries| >= maxEntries
        invariant Within(entries, old(entries))
        invariant forall t :: t in entries ==> nowMono < entries[t].deadline
        invariant forall t :: t in old(entries) && t !in entries && nowMono < old(entries)[t].deadline ==>
          && (forall s :: s in entries ==> old(entries)[t].deadline <= entries[s].deadline)
          && |entries| >= maxEntries - 1
        decreases |entries|
      {
        if |entries| == 0 { return false; }
        var oldest := Oldest(entries);
        entries := entries - {oldest};
      }
      ok := true;
    }
  }

  /** Besides the expired, only entries no younger than the others went, and no more than made room. */
  ghost predicate Spared(before: map<int, Entry>, after: map<int, Entry>, token: int, nowMono: int, maxEntries: int) {
    forall t :: t in before && t !in after && nowMono < before[t].deadline ==>
      && |after| >= maxEntries - 1
      && forall s :: s in after && s != token ==> before[t].deadline <= after[s].deadline
  }

  lemma SizeWritten(m: map<int, Entry>, token: int, e: Entry)
    ensures |m| <= |m[token := e]| <= |m| + 1
  {
    assert m[token := e].Keys == m.Keys + {token};
  }

  /** The key with the least deadline. */
  method Oldest(entries: map<int, Entry>) returns (oldest: int)
    requires |entries| > 0
    ensures oldest in entries && forall t :: t in entries ==> entries[oldest].deadline <= entries[t].deadline
  {
    var keys := entries.Keys;
    assert |keys| == |entries|;
    SomeKey(keys);
    oldest :| oldest in keys;
    var todo := keys - {oldest};
    while todo != {}
      invariant todo <= entries.Keys && oldest in entries
      invariant forall t :: t in entries && t !in todo ==> entries[oldest].deadline <= entries[t].deadline
      decreases todo
    {
      SomeKey(todo);
      var t :| t in todo;
      if entries[t].deadline < entries[oldest].deadline { oldest := t; }
      todo := todo - {t};
    }
  }

  lemma SomeKey(keys: set<int>)
    requires keys != {}
    ensures exists k :: k in keys
  {
    assert (forall k :: k !in keys) ==> keys == {};
  }

  /** What was kept, with one entry written, is the old map less what went, with that entry written. */
  lemma WrittenBack(kept: map<int, Entry>, before: map<int, Entry>, token: int, e: Entry)
    requires Within(kept, before)
    ensures kept[token := e] == (before - (before.Keys - kept[token := e].Keys))[token := e]
  {
    var a := kept[token := e];
    var b := (before - (before.Keys - a.Keys))[token := e];
    forall t ensures t in a <==> t in b {}
    forall t | t in a ensures a[t] == b[t] {}
  }

  // ---------------------------------------------------------------------
  // Lookups and revocations, interleaved
  // ---------------------------------------------------------------------

  /** What a mutation revokes: a user, one token, or (another process) anything at all. */
  datatype Revocation = OfUser(id: int) | OfToken(token: int) | OfAll

  /** A committed mutation: it is the `stamp`-th. */
  datatype Mutation = Mutation(what: Revocation, stamp: int)

  /**
    A lookup that missed: it holds the epoch it read before going to the
    database; `rowAt` is the state its session row was read in, `user` the
    outcome.
  */
  datatype Lookup1 = Lookup1(token: int, epoch: int, rowAt: Option<int>, done: bool, user: Option<User>)

  /**
    `commits` counts committed mutations.  `landed` holds the mutations whose
    invalidation has returned; `committed` all of them.
  */
  datatype System = System(
    cache: Cache,
    commits: int,
    committed: set<Mutation>,
    landed: set<Mutation>,
    lookups: map<int, Lookup1>)

  datatype Step =
    | Commit(what: Revocation)
    | Invalidate(m: Mutation)
    | Begin(thread: int, token: int)
    | ReadRow(thread: int)
    | ReadUser(thread: int, id: Option<int>)
    | WriteBack(thread: int, evicted: set<int>, deadline: int, tokenExpiry: int)
    | Expire(token: int)

  predicate Matches(what: Revocation, token: int, user: User) {
    match what
    case OfUser(id) => user.id == id
    case OfToken(t) => token == t
    case OfAll => true
  }

  function Dropped(c: Cache, what: Revocation): Cache {
    Cache(
      match what
      case OfUser(id) => WithoutUser(c.entries, id)
      case OfToken(t) => c.entries - {t}
      case OfAll => map[],
      c.epoch + 1)
  }

  /** Each lock-held region and each database transaction is one step; a step that does not apply does nothing. */
  function Next(s: System, step: Step): System {
    match step
    case Commit(what) =>
      s.(commits := s.commits + 1, committed := s.committed + {Mutation(what, s.commits + 1)})
    case Invalidate(m) =>
      if m !in s.committed then s else s.(cache := Dropped(s.cache, m.what), landed := s.landed + {m})
    case Begin(thread, token) =>
      s.(lookups := s.lookups[thread := Lookup1(token, s.cache.epoch, None, false, None)])
    case ReadRow(thread) =>
      if thread !in s.lookups || s.lookups[thread].rowAt != None then s
      else s.(lookups := s.lookups[thread := s.lookups[thread].(rowAt := Some(s.commits))])
    case ReadUser(thread, id) =>
      if thread !in s.lookups || s.lookups[thread].rowAt == None || s.lookups[thread].done then s
      else
        // The user counts as read when the session row was: the earlier of the two reads.
        var l := s.lookups[thread];
        var user := if id == None then None else Some(User(id.value, l.rowAt.value));
        s.(lookups := s.lookups[thread := l.(done := true, user := user)])
    case WriteBack(thread, evicted, deadline, tokenExpiry) =>
      if thread !in s.lookups || !s.lookups[thread].done then s
      else
        var l := s.lookups[thread];
        var rest := s.(lookups := s.lookups - {thread});
        if l.epoch != s.cache.epoch then rest
        else
          var e := Entry(deadline, tokenExpiry, l.user);
          rest.(cache := s.cache.(entries := (s.cache.entries - evicted)[l.token := e]))
    case Expire(token) =>
      s.(cache := s.cache.(entries := s.cache.entries - {token}))
  }

  function Run(steps: seq<Step>): System {
    if steps == [] then System(Cache(map[], 0), 0, {}, {}, map[])
    else Next(Run(steps[..|steps| - 1]), steps[|steps| - 1])
  }

  /** This user, under this token, was read after every landed mutation that revokes it. */
  ghost predicate Current(s: System, token: int, user: User) {
    forall m :: m in s.landed && Matches(m.what, token, user) ==> m.stamp <= user.readAt
  }

  ghost predicate Guarded(s: System) {
    && s.landed <= s.committed
    && (forall m :: m in s.committed ==> m.stamp <= s.commits)
    && (forall t :: t in s.cache.entries && s.cache.entries[t].user != None ==>
          Current(s, t, s.cache.entries[t].user.value))
    && (forall th :: th in s.lookups ==> s.lookups[th].epoch <= s.cache.epoch)
    && (forall th, m :: th in s.lookups && s.lookups[th].epoch == s.cache.epoch && s.lookups[th].rowAt != None &&
                         m in s.landed ==>
          m.stamp <= s.lookups[th].rowAt.value)
    && (forall th :: th in s.lookups && s.lookups[th].user != None ==>
          s.lookups[th].rowAt == Some(s.lookups[th].user.value.readAt))
  }

  lemma StepKeeps(s: System, step: Step)
    requires Guarded(s)
    ensures Guarded(Next(s, step))
  {
    var d := Next(s, step);
    match step {
      case Invalidate(m) =>
        if m in s.committed {
          forall t | t in d.cache.entries && d.cache.entries[t].user != None
            ensures Current(d, t, d.cache.entries[t].user.value)
          {
            assert Current(s, t, s.cache.entries[t].user.value);
          }
        }
      case WriteBack(thread, evicted, _, _) =>
        forall t | t in d.cache.entries && d.cache.entries[t].user != None
          ensures Current(d, t, d.cache.entries[t].user.value)
        {
          if t in s.cache.entries && d.cache.entries[t] == s.cache.entries[t] {
            assert Current(s, t, s.cache.entries[t].user.value);
          }
        }
      case _ =>
        forall t | t in d.cache.entries && d.cache.entries[t].user != None
          ensures Current(d, t, d.cache.entries[t].user.value)
        {
          assert Current(s, t, s.cache.entries[t].user.value);
        }
    }
  }

  lemma {:induction false} EveryState(steps: seq<Step>)
    ensures Guarded(Run(steps))
    decreases |steps|
  {
    hide Next;
    if steps != [] {
      EveryState(steps[..|steps| - 1]);
      hide Guarded;
      StepKeeps(Run(steps[..|steps| - 1]), steps[|steps| - 1]);
    }
  }

  /**
    Under any interleaving of lookups and revocations, once an invalidation has
    returned no cache entry, hence no hit, gives a user that the mutation
    revoked and that was read before it committed.
  */
  lemma NoStaleHit(steps: seq<Step>, token: int, m: Mutation)
    requires m in Run(steps).landed && token in Run(steps).cache.entries
    requires Run(steps).cache.entries[token].user != None
    requires Matches(m.what, token, Run(steps).cache.entries[token].user.value)
    ensures m.stamp <= Run(steps).cache.entries[token].user.value.readAt
  {
    hide Run;
    EveryState(steps);
    assert Current(Run(steps), token, Run(steps).cache.entries[token].user.value);
  }

  /**
    The epoch is what prevents it: here user 7 is read under token 1, then
    revoked, and the lookup still holds a result no longer current.
  */
  lemma HeldResultGoesStale()
    ensures var s := Run([Begin(5, 1), ReadRow(5), ReadUser(5, Some(7)), Commit(OfUser(7)),
        Invalidate(Mutation(OfUser(7), 1))]);
      && 5 in s.lookups && s.lookups[5].done && s.lookups[5].user != None
      && !Current(s, 1, s.lookups[5].user.value)
      && s.lookups[5].epoch != s.cache.epoch
  {
    var m := Mutation(OfUser(7), 1);
    var l := Lookup1(1, 0, Some(0), true, Some(User(7, 0)));
    var steps := [Begin(5, 1), ReadRow(5), ReadUser(5, Some(7)), Commit(OfUser(7)), Invalidate(m)];
    assert steps[..4] == [Begin(5, 1), ReadRow(5), ReadUser(5, Some(7)), Commit(OfUser(7))];
    assert steps[..4][..3] == [Begin(5, 1), ReadRow(5), ReadUser(5, Some(7))];
    assert steps[..4][..3][..2] == [Begin(5, 1), ReadRow(5)];
    assert steps[..4][..3][..2][..1] == [Begin(5, 1)];
    assert Run([]) == System(Cache(map[], 0), 0, {}, {}, map[]);
    assert Run([Begin(5, 1)]).lookups == map[5 := Lookup1(1, 0, None, false, None)];
    assert Run([Begin(5, 1), ReadRow(5)]).lookups == map[5 := Lookup1(1, 0, Some(0), false, None)];
    assert Run(steps[..4][..3]).lookups == map[5 := l];
    assert Run(steps[..4]).committed == {m};
    assert m in Run(steps).landed;
  }
}
