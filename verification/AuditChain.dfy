/** The hash-chained audit log: writing, verifying, and what retention does to it. */
module AuditChain {
  import opened Bytes

  /** Everything of an event but its time and its place in the chain. */
  datatype Fields = Fields(
    userId: Option<int>,
    termSession: Option<string>,
    event: string,
    payload: Option<string>,
    ip: Option<string>,
    requestId: Option<string>)

  datatype Event = Event(ts: real, fields: Fields)

  datatype Row = Row(id: int, ts: real, fields: Fields, prev: string, hash: string)

  /** The digest sees the time in whole microseconds, ties to even, as `%.6f` prints it. */
  type Hasher = (string, int, Fields) -> string

  const GENESIS := "0000000000000000000000000000000000000000000000000000000000000000"

  function Micros(ts: real): int {
    var x := ts * 1000000.0;
    var low := x.Floor;
    var rest := x - low as real;
    if rest < 0.5 then low
    else if rest > 0.5 then low + 1
    else if low % 2 == 0 then low else low + 1
  }

  /** The nearest whole microsecond; of two equally near the even one. */
  lemma MicrosIsNearest(ts: real, m: int)
    ensures m == Micros(ts) <==>
      || -0.5 < ts * 1000000.0 - m as real < 0.5
      || ((ts * 1000000.0 - m as real == 0.5 || ts * 1000000.0 - m as real == -0.5) && m % 2 == 0)
  {
    var low := (ts * 1000000.0).Floor;
    assert low as real <= ts * 1000000.0 < low as real + 1.0;
  }

  function Digest(h: Hasher, prev: string, ts: real, fields: Fields): string {
    h(prev, Micros(ts), fields)
  }

  // ---------------------------------------------------------------------
  // Writing
  // ---------------------------------------------------------------------

  function Head(rows: seq<Row>): string {
    if rows != [] && rows[|rows| - 1].hash != "" then rows[|rows| - 1].hash else GENESIS
  }

  /** The stored rows, and the id the next one gets: ids are never given out twice. */
  datatype Log = Log(rows: seq<Row>, next: int)

  /** The rows one batch adds, chained from `prev`. */
  function Chain(h: Hasher, prev: string, id: int, events: seq<Event>): seq<Row>
    decreases |events|
  {
    if events == [] then []
    else
      var e := events[0];
      var d := Digest(h, prev, e.ts, e.fields);
      [Row(id, e.ts, e.fields, prev, d)] + Chain(h, d, id + 1, events[1..])
  }

  function Write(h: Hasher, log: Log, events: seq<Event>): Log {
    Log(log.rows + Chain(h, Head(log.rows), log.next, events), log.next + |events|)
  }

  /** No digest is the empty string, which marks a row without a hash. */
  ghost predicate NonEmptyDigests(h: Hasher) {
    forall p, m, f :: h(p, m, f) != ""
  }

  class AuditLog {
    const hasher: Hasher
    var rows: seq<Row>
    var next: int

    constructor (hasher: Hasher)
      ensures rows == [] && next == 1 && this.hasher == hasher
    {
      this.hasher, rows, next := hasher, [], 1;
    }

    method WriteEvents(events: seq<Event>)
      modifies this
      ensures Log(rows, next) == Write(hasher, Log(old(rows), old(next)), events)
    {
      if events == [] {
        assert rows + [] == rows;
        return;
      }
      var prev := if rows != [] && rows[|rows| - 1].hash != "" then rows[|rows| - 1].hash else GENESIS;
      var id := next;
      var added: seq<Row> := [];
      assert events[0..] == events;
      for i := 0 to |events|
        invariant rows == old(rows) && next == old(next) && id == next + i
        invariant added + Chain(hasher, prev, id, events[i..]) == Chain(hasher, Head(rows), next, events)
      {
        assert events[i..][1..] == events[i + 1..];
        var d := Digest(hasher, prev, events[i].ts, events[i].fields);
        var row := Row(id, events[i].ts, events[i].fields, prev, d);
        assert added + ([row] + Chain(hasher, d, id + 1, events[i + 1..]))
            == added + [row] + Chain(hasher, d, id + 1, events[i + 1..]);
        added := added + [row];
        prev, id := d, id + 1;
      }
      rows, next := rows + added, id;
    }

    /** Deletes the rows older than `before`; returns how many went. */
    method PurgeAudit(before: real) returns (gone: int)
      modifies this`rows
      ensures rows == Recent(old(rows), before) && gone == |old(rows)| - |rows|
    {
      var kept: seq<Row> := [];
      assert rows[0..] == rows;
      for i := 0 to |rows|
        invariant rows == old(rows)
        invariant kept + Recent(rows[i..], before) == Recent(rows, before)
      {
        assert rows[i..][1..] == rows[i + 1..];
        if rows[i].ts >= before {
          assert kept + ([rows[i]] + Recent(rows[i + 1..], before)) == kept + [rows[i]] + Recent(rows[i + 1..], before);
          kept := kept + [rows[i]];
        }
      }
      gone := |rows| - |kept|;
      rows := kept;
    }

    /** Recomputes the chain of the hashed rows and reports the first broken link. */
    method VerifyAudit() returns (report: Report)
      ensures var hashed := Hashed(rows);
        && (report.ok <==> Linked(hasher, hashed))
        && report.checked <= |hashed|
        && (report.ok ==> report.checked == |hashed| && report.brokenAt == None)
        && (!report.ok ==>
              && report.checked < |hashed| && report.brokenAt == Some(hashed[report.checked].id)
              && Linked(hasher, hashed[..report.checked])
              && !GoodLink(hasher, hashed, report.checked))
        && (report.truncated <==> Truncated(rows))
    {
      var hashed := HashedRows(rows);
      if rows == [] { return Report(true, 0, false, None); }
      if hashed == [] { return Report(true, 0, true, None); }
      var truncated := |hashed| < |rows| || hashed[0].prev != GENESIS;
      var expected := hashed[0].prev;
      for i := 0 to |hashed|
        invariant i > 0 ==> expected == hashed[i - 1].hash
        invariant forall k :: 0 <= k < i ==> GoodLink(hasher, hashed, k)
      {
        var row := hashed[i];
        PrefixLinked(hasher, hashed, i);
        if i > 0 && row.prev != expected {
          assert !GoodLink(hasher, hashed, i);
          return Report(false, i, truncated, Some(row.id));
        }
        var d := Digest(hasher, row.prev, row.ts, row.fields);
        if d != row.hash {
          assert !GoodLink(hasher, hashed, i);
          return Report(false, i, truncated, Some(row.id));
        }
        expected := d;
      }
      report := Report(true, |hashed|, truncated, None);
    }
  }

  datatype Report = Report(ok: bool, checked: nat, truncated: bool, brokenAt: Option<int>)

  function Recent(rows: seq<Row>, before: real): seq<Row> {
    if rows == [] then []
    else if rows[0].ts < before then Recent(rows[1..], before)
    else [rows[0]] + Recent(rows[1..], before)
  }

  /** The rows that carry a hash; a database migrated from an older version has some that do not. */
  function Hashed(rows: seq<Row>): seq<Row> {
    if rows == [] then []
    else if rows[0].hash == "" then Hashed(rows[1..])
    else [rows[0]] + Hashed(rows[1..])
  }

  /** Rows from before the hashed chain are there, or the chain does not start at the genesis. */
  predicate Truncated(rows: seq<Row>) {
    var hashed := Hashed(rows);
    |hashed| < |rows| || (hashed != [] && hashed[0].prev != GENESIS)
  }

  method HashedRows(rows: seq<Row>) returns (hashed: seq<Row>)
    ensures hashed == Hashed(rows) && |hashed| <= |rows|
  {
    hashed := [];
    assert rows[0..] == rows;
    for i := 0 to |rows|
      invariant |hashed| <= i
      invariant hashed + Hashed(rows[i..]) == Hashed(rows)
    {
      assert rows[i..][1..] == rows[i + 1..];
      if rows[i].hash != "" {
        assert hashed + ([rows[i]] + Hashed(rows[i + 1..])) == hashed + [rows[i]] + Hashed(rows[i + 1..]);
        hashed := hashed + [rows[i]];
      }
    }
  }

  predicate GoodLink(h: Hasher, rows: seq<Row>, i: int)
    requires 0 <= i < |rows|
  {
    && rows[i].hash == Digest(h, rows[i].prev, rows[i].ts, rows[i].fields)
    && (i > 0 ==> rows[i].prev == rows[i - 1].hash)
  }

  /** Each row hashes its own content, and names its predecessor's hash. */
  ghost predicate Linked(h: Hasher, rows: seq<Row>) {
    forall i :: 0 <= i < |rows| ==> GoodLink(h, rows, i)
  }

  lemma PrefixLinked(h: Hasher, rows: seq<Row>, n: nat)
    requires n <= |rows| && forall k :: 0 <= k < n ==> GoodLink(h, rows, k)
    ensures Linked(h, rows[..n])
  {
    forall k | 0 <= k < n ensures GoodLink(h, rows[..n], k) {
      assert GoodLink(h, rows, k);
    }
  }

  // ---------------------------------------------------------------------
  // Batches
  // ---------------------------------------------------------------------

  lemma {:induction false} ChainAppend(h: Hasher, prev: string, id: int, a: seq<Event>, b: seq<Event>)
    ensures var first := Chain(h, prev, id, a);
      |first| == |a|
      && Chain(h, prev, id, a + b)
           == first + Chain(h, if first == [] then prev else first[|first| - 1].hash, id + |a|, b)
    ensures forall i :: 0 <= i < |a| ==> Chain(h, prev, id, a)[i].id == id + i
    decreases |a|
  {
    if a == [] {
      assert a + b == b;
      assert Chain(h, prev, id, a) == [];
    } else {
      var d := Digest(h, prev, a[0].ts, a[0].fields);
      ChainAppend(h, d, id + 1, a[1..], b);
      assert (a + b)[1..] == a[1..] + b;
      var tail := Chain(h, d, id + 1, a[1..]);
      var first := Chain(h, prev, id, a);
      assert first == [Row(id, a[0].ts, a[0].fields, prev, d)] + tail;
      assert (if tail == [] then d else tail[|tail| - 1].hash) == first[|first| - 1].hash;
    }
  }

  /** Row `i` carries the time and all the fields of event `i`, under the next free id. */
  ghost predicate Carries(row: Row, id: int, e: Event) {
    row.id == id && row.ts == e.ts && row.fields == e.fields
  }

  lemma {:induction false} ChainCarries(h: Hasher, prev: string, id: int, events: seq<Event>)
    ensures var rows := Chain(h, prev, id, events);
      |rows| == |events| && forall i :: 0 <= i < |events| ==> Carries(rows[i], id + i, events[i])
    decreases |events|
  {
    if events != [] {
      var d := Digest(h, prev, events[0].ts, events[0].fields);
      ChainCarries(h, d, id + 1, events[1..]);
      var rows, tail := Chain(h, prev, id, events), Chain(h, d, id + 1, events[1..]);
      forall i | 0 <= i < |events| ensures Carries(rows[i], id + i, events[i]) {
        if i > 0 { assert Carries(tail[i - 1], id + 1 + (i - 1), events[1..][i - 1]); }
      }
    }
  }

  /** A batch leaves the rows that are there and adds one row for each event, in order. */
  lemma WrittenRowsCarry(h: Hasher, log: Log, events: seq<Event>)
    ensures var d := Write(h, log, events);
      && d.next == log.next + |events| && |d.rows| == |log.rows| + |events| && d.rows[..|log.rows|] == log.rows
      && forall i :: 0 <= i < |events| ==> Carries(d.rows[|log.rows| + i], log.next + i, events[i])
  {
    ChainCarries(h, Head(log.rows), log.next, events);
    hide Chain, Carries;
  }

  /** Writing twice is writing once. */
  lemma WriteTwice(h: Hasher, log: Log, a: seq<Event>, b: seq<Event>)
    requires NonEmptyDigests(h)
    ensures Write(h, Write(h, log, a), b) == Write(h, log, a + b)
  {
    var rows := log.rows;
    ChainAppend(h, Head(rows), log.next, a, b);
    var first := Chain(h, Head(rows), log.next, a);
    ChainLinks(h, Head(rows), log.next, a);
    if a == [] {
      assert rows + [] == rows;
    } else {
      var w := rows + first;
      assert w[|w| - 1] == first[|first| - 1];
      assert Head(w) == first[|first| - 1].hash;
    }
    assert rows + (first + Chain(h, Head(rows + first), log.next + |a|, b))
        == rows + first + Chain(h, Head(rows + first), log.next + |a|, b);
  }

  /** The log after a list of batches, written one by one. */
  function WriteAll(h: Hasher, log: Log, batches: seq<seq<Event>>): Log
    decreases |batches|
  {
    if batches == [] then log else WriteAll(h, Write(h, log, batches[0]), batches[1..])
  }

  /** Any split of the events into batches writes the same chain. */
  lemma {:induction false} BatchesDoNotMatter(h: Hasher, log: Log, batches: seq<seq<Event>>)
    requires NonEmptyDigests(h)
    ensures WriteAll(h, log, batches) == Write(h, log, Flatten(batches))
    decreases |batches|
  {
    if batches == [] {
      assert log.rows + [] == log.rows;
    } else {
      hide Write;
      BatchesDoNotMatter(h, Write(h, log, batches[0]), batches[1..]);
      WriteTwice(h, log, batches[0], Flatten(batches[1..]));
    }
  }

  lemma {:induction false} ChainLinks(h: Hasher, prev: string, id: int, events: seq<Event>)
    requires NonEmptyDigests(h)
    ensures var rows := Chain(h, prev, id, events);
      && Linked(h, rows) && (rows != [] ==> rows[0].prev == prev)
      && forall i :: 0 <= i < |rows| ==> rows[i].hash != ""
    decreases |events|
  {
    if events != [] {
      var d := Digest(h, prev, events[0].ts, events[0].fields);
      ChainLinks(h, d, id + 1, events[1..]);
      var tail := Chain(h, d, id + 1, events[1..]);
      var rows := Chain(h, prev, id, events);
      assert rows == [rows[0]] + tail;
      forall i | 0 <= i < |rows| ensures GoodLink(h, rows, i) && rows[i].hash != "" {
        if i > 0 { assert GoodLink(h, tail, i - 1); }
      }
    }
  }

  lemma {:induction false} AllHashed(rows: seq<Row>)
    requires forall i :: 0 <= i < |rows| ==> rows[i].hash != ""
    ensures Hashed(rows) == rows
  {
    if rows != [] {
      AllHashed(rows[1..]);
      assert rows == [rows[0]] + rows[1..];
    }
  }

  /** What was written from an empty log verifies, untruncated. */
  lemma WrittenVerifies(h: Hasher, events: seq<Event>)
    requires NonEmptyDigests(h)
    ensures var rows := Write(h, Log([], 1), events).rows;
      Hashed(rows) == rows && Linked(h, rows) && (rows != [] ==> rows[0].prev == GENESIS)
  {
    ChainLinks(h, GENESIS, 1, events);
    var rows := Chain(h, GENESIS, 1, events);
    assert [] + rows == rows;
    AllHashed(rows);
  }

  lemma {:induction false} HashedAppend(a: seq<Row>, b: seq<Row>)
    ensures Hashed(a + b) == Hashed(a) + Hashed(b)
  {
    if a == [] {
      assert a + b == b;
    } else {
      HashedAppend(a[1..], b);
      assert (a + b)[1..] == a[1..] + b;
      assert [a[0]] + (Hashed(a[1..]) + Hashed(b)) == [a[0]] + Hashed(a[1..]) + Hashed(b);
    }
  }

  lemma {:induction false} NoneHashed(rows: seq<Row>)
    requires forall i :: 0 <= i < |rows| ==> rows[i].hash == ""
    ensures Hashed(rows) == []
  {
    if rows != [] { NoneHashed(rows[1..]); }
  }

  /**
    A log from before the hashed chain: what is written after it starts a chain at
    the genesis and verifies, and the whole is reported as truncated.
  */
  lemma MigratedLogVerifies(h: Hasher, legacy: seq<Row>, next: int, events: seq<Event>)
    requires NonEmptyDigests(h) && forall i :: 0 <= i < |legacy| ==> legacy[i].hash == ""
    ensures var rows := Write(h, Log(legacy, next), events).rows;
      && Linked(h, Hashed(rows)) && Hashed(rows) == rows[|legacy|..]
      && (events != [] ==> Hashed(rows) != [] && Hashed(rows)[0].prev == GENESIS)
      && (Truncated(rows) <==> legacy != [])
  {
    ChainLinks(h, Head(legacy), next, events);
    ChainCarries(h, Head(legacy), next, events);
    var added := Chain(h, Head(legacy), next, events);
    hide Chain;
    HashedAppend(legacy, added);
    NoneHashed(legacy);
    AllHashed(added);
    assert [] + added == added && (legacy + added)[|legacy|..] == added;
  }

  // ---------------------------------------------------------------------
  // Retention
  // ---------------------------------------------------------------------

  lemma {:induction false} RecentIsSuffix(rows: seq<Row>, before: real)
    requires InTime(rows)
    ensures exists n :: 0 <= n <= |rows| && Recent(rows, before) == rows[n..]
  {
    if rows == [] {
      assert rows[0..] == [];
    } else {
      RecentIsSuffix(rows[1..], before);
      var n :| 0 <= n <= |rows[1..]| && Recent(rows[1..], before) == rows[1..][n..];
      if rows[0].ts < before {
        assert rows[1..][n..] == rows[n + 1..];
      } else {
        AllRecent(rows, before);
        assert rows[0..] == rows;
      }
    }
  }

  lemma {:induction false} AllRecent(rows: seq<Row>, before: real)
    requires forall i :: 0 <= i < |rows| ==> rows[i].ts >= before
    ensures Recent(rows, before) == rows
  {
    if rows != [] {
      AllRecent(rows[1..], before);
      assert rows == [rows[0]] + rows[1..];
    }
  }

  // ---------------------------------------------------------------------
  // Every log
  // ---------------------------------------------------------------------

  datatype Op = Batch(events: seq<Event>) | Purge(before: real)

  function Apply(h: Hasher, log: Log, op: Op): Log {
    match op
    case Batch(events) => Write(h, log, events)
    case Purge(before) => log.(rows := Recent(log.rows, before))
  }

  function After(h: Hasher, ops: seq<Op>): Log {
    if ops == [] then Log([], 1) else Apply(h, After(h, ops[..|ops| - 1]), ops[|ops| - 1])
  }

  ghost predicate InTime(rows: seq<Row>) {
    forall i, j :: 0 <= i < j < |rows| ==> rows[i].ts <= rows[j].ts
  }

  /** At no point do the times of the stored rows go back with the id. */
  ghost predicate TimelyOps(h: Hasher, ops: seq<Op>) {
    InTime(After(h, ops).rows) && (ops == [] || TimelyOps(h, ops[..|ops| - 1]))
  }

  /** Since the log was last empty, a purge has taken something. */
  ghost predicate Shortened(h: Hasher, ops: seq<Op>) {
    ops != []
    && var before := After(h, ops[..|ops| - 1]);
       match ops[|ops| - 1]
       case Batch(_) => before.rows != [] && Shortened(h, ops[..|ops| - 1])
       case Purge(_) => |After(h, ops).rows| < |before.rows| || Shortened(h, ops[..|ops| - 1])
  }

  /** No digest is the genesis hash. */
  ghost predicate NoGenesis(h: Hasher) {
    forall p, m, f :: h(p, m, f) != GENESIS
  }

  /** All rows are hashed, and the chain is linked. */
  ghost predicate Sound(h: Hasher, rows: seq<Row>) {
    Linked(h, rows) && forall i :: 0 <= i < |rows| ==> rows[i].hash != ""
  }

  lemma BatchSound(h: Hasher, log: Log, events: seq<Event>)
    requires NonEmptyDigests(h) && Sound(h, log.rows)
    ensures var d := Write(h, log, events);
      && Sound(h, d.rows) && |d.rows| == |log.rows| + |events|
      && (d.rows != [] ==> d.rows[0].prev == if log.rows == [] then GENESIS else log.rows[0].prev)
  {
    var rows, d := log.rows, Write(h, log, events);
    ChainLinks(h, Head(rows), log.next, events);
    ChainAppend(h, Head(rows), log.next, events, []);
    var tail := Chain(h, Head(rows), log.next, events);
    forall i | 0 <= i < |d.rows| ensures GoodLink(h, d.rows, i) && d.rows[i].hash != "" {
      if i < |rows| {
        assert GoodLink(h, rows, i);
      } else {
        assert GoodLink(h, tail, i - |rows|) && d.rows[i] == tail[i - |rows|];
        if i == |rows| && i > 0 { assert tail[0].prev == rows[i - 1].hash; }
      }
    }
  }

  /**
    A chain whose times do not go back still verifies after retention; it is
    reported as truncated exactly when something is left of it and it was
    truncated before or has lost a row.
  */
  lemma RetentionVerifies(h: Hasher, rows: seq<Row>, before: real)
    requires Linked(h, rows) && InTime(rows)
    ensures var kept := Recent(rows, before);
      && Linked(h, kept) && InTime(kept)
      && (Sound(h, rows) && NoGenesis(h) ==>
            && Sound(h, kept)
            && (Truncated(kept) <==> kept != [] && (Truncated(rows) || |kept| < |rows|)))
  {
    hide *;
    RecentIsSuffix(rows, before);
    var n :| 0 <= n <= |rows| && Recent(rows, before) == rows[n..];
    assert |rows[n..]| == |rows| - n;
    SuffixLinked(h, rows, n);
    if Sound(h, rows) && NoGenesis(h) { SuffixTruncated(h, rows, n); }
  }

  lemma SuffixLinked(h: Hasher, rows: seq<Row>, n: nat)
    requires n <= |rows| && Linked(h, rows) && InTime(rows)
    ensures Linked(h, rows[n..]) && InTime(rows[n..]) && (Sound(h, rows) ==> Sound(h, rows[n..]))
  {
    var kept := rows[n..];
    assert forall i :: 0 <= i < |kept| ==> kept[i] == rows[n + i];
    forall i | 0 <= i < |kept| ensures GoodLink(h, kept, i) {
      assert GoodLink(h, rows, n + i);
    }
  }

  lemma SuffixTruncated(h: Hasher, rows: seq<Row>, n: nat)
    requires n <= |rows| && Sound(h, rows) && NoGenesis(h)
    ensures Truncated(rows[n..]) <==> rows[n..] != [] && (Truncated(rows) || n > 0)
  {
    var kept := rows[n..];
    assert forall i :: 0 <= i < |kept| ==> kept[i] == rows[n + i];
    AllHashed(rows);
    AllHashed(kept);
    if 0 < n < |rows| {
      assert GoodLink(h, rows, n) && GoodLink(h, rows, n - 1);
      assert rows[n].prev == rows[n - 1].hash != GENESIS;
    } else if n == 0 {
      assert kept == rows;
    }
  }

  /**
    Over every run of batches and purges whose times do not go back, the log
    verifies; and it reports itself truncated exactly when it holds rows and a
    purge has taken some since it was last empty.
  */
  lemma {:induction false} EveryLogVerifies(h: Hasher, ops: seq<Op>)
    requires NonEmptyDigests(h) && NoGenesis(h) && TimelyOps(h, ops)
    ensures var rows := After(h, ops).rows;
      && Hashed(rows) == rows && Sound(h, rows)
      && (Truncated(rows) <==> rows != [] && Shortened(h, ops))
    decreases |ops|
  {
    var rows := After(h, ops).rows;
    if ops != [] {
      var before, op := ops[..|ops| - 1], ops[|ops| - 1];
      EveryLogVerifies(h, before);
      var log := After(h, before);
      match op {
        case Batch(events) => BatchSound(h, log, events);
        case Purge(limit) =>
          RetentionVerifies(h, log.rows, limit);
          RecentIsSuffix(log.rows, limit);
      }
    }
    AllHashed(rows);
  }

  /** The rows at these positions. */
  function Pick(rows: seq<Row>, at: seq<int>): seq<Row>
    requires forall i :: 0 <= i < |at| ==> 0 <= at[i] < |rows|
  {
    seq(|at|, i requires 0 <= i < |at| => rows[at[i]])
  }

  /**
    In general, deleting rows goes unnoticed exactly when those that stay were
    neighbours: losing rows at either end is invisible, losing one inside is not.
  */
  lemma DeletionShows(h: Hasher, rows: seq<Row>, at: seq<int>)
    requires Linked(h, rows)
    requires forall i, j :: 0 <= i < j < |rows| ==> rows[i].hash != rows[j].hash
    requires forall i :: 0 <= i < |at| ==> 0 <= at[i] < |rows|
    requires forall i, j :: 0 <= i < j < |at| ==> at[i] < at[j]
    ensures Linked(h, Pick(rows, at)) <==> forall i :: 0 < i < |at| ==> at[i] == at[i - 1] + 1
  {
    var kept := Pick(rows, at);
    if Linked(h, kept) {
      forall i | 0 < i < |at| ensures at[i] == at[i - 1] + 1 {
        KeptLink(h, rows, at, i);
        assert GoodLink(h, kept, i);
      }
    } else {
      var i :| 0 <= i < |at| && !GoodLink(h, kept, i);
      KeptLink(h, rows, at, i);
      assert i > 0 && at[i] != at[i - 1] + 1;
    }
  }

  lemma KeptLink(h: Hasher, rows: seq<Row>, at: seq<int>, i: nat)
    requires Linked(h, rows) && i < |at|
    requires forall i, j :: 0 <= i < j < |rows| ==> rows[i].hash != rows[j].hash
    requires forall i :: 0 <= i < |at| ==> 0 <= at[i] < |rows|
    requires forall i, j :: 0 <= i < j < |at| ==> at[i] < at[j]
    ensures GoodLink(h, Pick(rows, at), i) <==> (i > 0 ==> at[i] == at[i - 1] + 1)
  {
    assert GoodLink(h, rows, at[i]);
    if i > 0 {
      assert at[i - 1] < at[i];
      assert rows[at[i]].prev == rows[at[i] - 1].hash;
      assert rows[at[i] - 1].hash == rows[at[i - 1]].hash <==> at[i] - 1 == at[i - 1];
    }
  }

  // ---------------------------------------------------------------------
  // Exactly the rows that are recent, exactly those that are hashed
  // ---------------------------------------------------------------------

  /** `at` lists, in order, the positions from `n` on of the rows to keep, and no others. */
  ghost predicate Lists(rows: seq<Row>, n: nat, keep: Row -> bool, at: seq<int>) {
    && (forall i :: 0 <= i < |at| ==> n <= at[i] < |rows| && keep(rows[at[i]]))
    && (forall i, j :: 0 <= i < j < |at| ==> at[i] < at[j])
    && (forall k :: n <= k < |rows| && keep(rows[k]) ==> k in at)
  }

  lemma ListsOneMore(rows: seq<Row>, n: nat, keep: Row -> bool, rest: seq<int>)
    requires n < |rows| && keep(rows[n]) && Lists(rows, n + 1, keep, rest)
    ensures Lists(rows, n, keep, [n] + rest)
    ensures Pick(rows, [n] + rest) == [rows[n]] + Pick(rows, rest)
  {
    var at := [n] + rest;
    assert forall i :: 0 < i < |at| ==> at[i] == rest[i - 1];
    forall k | n <= k < |rows| && keep(rows[k]) ensures k in at {
      if k == n { assert at[0] == n; }
    }
  }

  lemma ListsNoMore(rows: seq<Row>, n: nat, keep: Row -> bool, at: seq<int>)
    requires n < |rows| && !keep(rows[n]) && Lists(rows, n + 1, keep, at)
    ensures Lists(rows, n, keep, at)
  {
  }

  lemma {:induction false} RecentFrom(rows: seq<Row>, n: nat, before: real, keep: Row -> bool) returns (at: seq<int>)
    requires n <= |rows| && forall r :: keep(r) <==> r.ts >= before
    ensures Lists(rows, n, keep, at) && Recent(rows[n..], before) == Pick(rows, at)
    decreases |rows| - n
  {
    at := [];
    if n < |rows| {
      hide Lists, Pick;
      at := RecentFrom(rows, n + 1, before, keep);
      assert rows[n..][1..] == rows[n + 1..];
      if keep(rows[n]) {
        ListsOneMore(rows, n, keep, at);
        at := [n] + at;
      } else {
        ListsNoMore(rows, n, keep, at);
      }
    }
  }

  lemma {:induction false} HashedFrom(rows: seq<Row>, n: nat, keep: Row -> bool) returns (at: seq<int>)
    requires n <= |rows| && forall r :: keep(r) <==> r.hash != ""
    ensures Lists(rows, n, keep, at) && Hashed(rows[n..]) == Pick(rows, at)
    decreases |rows| - n
  {
    at := [];
    if n < |rows| {
      hide Lists, Pick;
      at := HashedFrom(rows, n + 1, keep);
      assert rows[n..][1..] == rows[n + 1..];
      if keep(rows[n]) {
        ListsOneMore(rows, n, keep, at);
        at := [n] + at;
      } else {
        ListsNoMore(rows, n, keep, at);
      }
    }
  }

  /** Retention keeps exactly the rows that are not older than the limit, in order. */
  lemma RecentIsExact(rows: seq<Row>, before: real) returns (at: seq<int>)
    ensures Lists(rows, 0, (r: Row) => r.ts >= before, at) && Recent(rows, before) == Pick(rows, at)
  {
    at := RecentFrom(rows, 0, before, (r: Row) => r.ts >= before);
    assert rows[0..] == rows;
    hide *;
  }

  /** Verification reads exactly the rows with a hash, in order. */
  lemma HashedIsExact(rows: seq<Row>) returns (at: seq<int>)
    ensures Lists(rows, 0, (r: Row) => r.hash != "", at) && Hashed(rows) == Pick(rows, at)
  {
    at := HashedFrom(rows, 0, (r: Row) => r.hash != "");
    assert rows[0..] == rows;
    hide *;
  }

  lemma {:induction false} UnhashedIsMissed(rows: seq<Row>, i: nat)
    requires i < |rows| && rows[i].hash == ""
    ensures |Hashed(rows)| < |rows|
  {
    HashedIsNoLonger(rows[1..]);
    if i > 0 { UnhashedIsMissed(rows[1..], i - 1); }
  }

  lemma {:induction false} HashedIsNoLonger(rows: seq<Row>)
    ensures |Hashed(rows)| <= |rows|
  {
    if rows != [] { HashedIsNoLonger(rows[1..]); }
  }

  /** Truncated: a row has no hash, or the first one does not name the genesis. */
  lemma TruncatedExactly(rows: seq<Row>)
    ensures Truncated(rows)
       <==> (exists i :: 0 <= i < |rows| && rows[i].hash == "") || (rows != [] && rows[0].prev != GENESIS)
  {
    if i :| 0 <= i < |rows| && rows[i].hash == "" {
      UnhashedIsMissed(rows, i);
    } else {
      AllHashed(rows);
    }
  }

  /** Row `j` goes and rows `i` and `k` around it stay. */
  predicate Straddles(rows: seq<Row>, keep: Row -> bool, i: int, j: int, k: int) {
    0 <= i < j < k < |rows| && keep(rows[i]) && keep(rows[k]) && !keep(rows[j])
  }

  /** No row that goes stands between two that stay. */
  ghost predicate NoneBetween(rows: seq<Row>, keep: Row -> bool) {
    forall i, j, k :: !Straddles(rows, keep, i, j, k)
  }

  ghost predicate Adjacent(at: seq<int>) {
    forall i :: 0 < i < |at| ==> at[i] == at[i - 1] + 1
  }

  lemma {:induction false} Neighbours(at: seq<int>, i: nat, j: nat)
    requires i <= j < |at| && Adjacent(at)
    ensures at[j] - at[i] == j - i
    decreases j
  {
    if i < j { Neighbours(at, i, j - 1); }
  }

  lemma PositionsInOrder(at: seq<int>, a: int, b: int)
    requires 0 <= a < |at| && 0 <= b < |at| && forall i, j :: 0 <= i < j < |at| ==> at[i] < at[j]
    ensures at[a] <= at[b] <==> a <= b
  {
  }

  lemma NoneBetweenIsAdjacent(rows: seq<Row>, keep: Row -> bool, at: seq<int>)
    requires Lists(rows, 0, keep, at) && NoneBetween(rows, keep)
    ensures Adjacent(at)
  {
    forall i | 0 < i < |at| ensures at[i] == at[i - 1] + 1 {
      var j := at[i - 1] + 1;
      assert at[i - 1] < at[i];
      if j < at[i] {
        assert !Straddles(rows, keep, at[i - 1], j, at[i]);
        var k :| 0 <= k < |at| && at[k] == j;
        PositionsInOrder(at, k, i - 1);
        PositionsInOrder(at, i, k);
      }
    }
  }

  lemma AdjacentHasNoneBetween(rows: seq<Row>, keep: Row -> bool, at: seq<int>, i: nat, j: nat, k: nat)
    requires Lists(rows, 0, keep, at) && Adjacent(at)
    requires i < j < k < |rows| && keep(rows[i]) && keep(rows[k])
    ensures keep(rows[j])
  {
    var a :| 0 <= a < |at| && at[a] == i;
    var b :| 0 <= b < |at| && at[b] == k;
    PositionsInOrder(at, a, b);
    Neighbours(at, a, b);
    Neighbours(at, a, a + (j - i));
    assert at[a + (j - i)] == j;
  }

  /** Whatever the times are, the log verifies after retention exactly when no row went from between two that stayed. */
  lemma RetentionShows(h: Hasher, rows: seq<Row>, before: real)
    requires Linked(h, rows)
    requires forall i, j :: 0 <= i < j < |rows| ==> rows[i].hash != rows[j].hash
    ensures Linked(h, Recent(rows, before)) <==> NoneBetween(rows, (r: Row) => r.ts >= before)
  {
    hide Linked, Recent;
    var keep := (r: Row) => r.ts >= before;
    var at := RecentFrom(rows, 0, before, keep);
    assert rows[0..] == rows;
    DeletionShows(h, rows, at);
    if NoneBetween(rows, keep) {
      NoneBetweenIsAdjacent(rows, keep, at);
    } else if Adjacent(at) {
      var i, j, k :| Straddles(rows, keep, i, j, k);
      AdjacentHasNoneBetween(rows, keep, at, i, j, k);
    }
  }

  // ---------------------------------------------------------------------
  // The last hash commits to the content
  // ---------------------------------------------------------------------

  ghost predicate CollisionFree(h: Hasher) {
    forall p1, m1, f1, p2, m2, f2 :: h(p1, m1, f1) == h(p2, m2, f2) ==> p1 == p2 && m1 == m2 && f1 == f2
  }

  /** Two verified chains of one length with one last hash agree in all that is hashed, times to the microsecond. */
  lemma {:induction false} LastHashCommits(h: Hasher, a: seq<Row>, b: seq<Row>)
    requires CollisionFree(h) && Linked(h, a) && Linked(h, b)
    requires |a| == |b| > 0 && a[|a| - 1].hash == b[|b| - 1].hash
    ensures forall i :: 0 <= i < |a| ==>
      Micros(a[i].ts) == Micros(b[i].ts) && a[i].fields == b[i].fields && a[i].prev == b[i].prev
          && a[i].hash == b[i].hash
    decreases |a|
  {
    var n := |a| - 1;
    assert GoodLink(h, a, n) && GoodLink(h, b, n);
    if n > 0 {
      forall i | 0 <= i < n ensures GoodLink(h, a[..n], i) && GoodLink(h, b[..n], i) {
        assert GoodLink(h, a, i) && GoodLink(h, b, i);
      }
      LastHashCommits(h, a[..n], b[..n]);
      forall i | 0 <= i < n
        ensures Micros(a[i].ts) == Micros(b[i].ts) && a[i].fields == b[i].fields && a[i].prev == b[i].prev
            && a[i].hash == b[i].hash
      {
        assert a[..n][i] == a[i] && b[..n][i] == b[i];
      }
    }
  }

  /** Below the microsecond it does not: these two rows share every hash. */
  lemma TimesBelowTheMicrosecond(h: Hasher, prev: string, fields: Fields)
    ensures Digest(h, prev, 0.0, fields) == Digest(h, prev, 0.0000001, fields)
  {
    assert (0.0 * 1000000.0).Floor == 0;
    assert 0.0000001 * 1000000.0 == 0.1;
    assert (0.1).Floor == 0;
  }
}
