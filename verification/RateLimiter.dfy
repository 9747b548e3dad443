/** The in-memory limiter of internal/ratelimiter/memory.go. Times are in nanoseconds. */
module RateLimiter {
  import opened Wrappers

  datatype Counter = Counter(count: nat, reset: int)
  type Table = map<string, Counter>

  /** The ten tables in the order in which eviction visits them: seven by address, three by email. */
  const TABLES := 10

  datatype Limit = Limit(count: nat, window: int)

  datatype Scope = ByIP | ByKey

  /** A refusal names the scope and how long to wait. */
  datatype Answer = Allowed | Refused(scope: Scope, retryAfter: int)

  predicate LiveAt(table: Table, key: string, now: int) {
    key in table && now < table[key].reset
  }

  /** getCounterLocked: the counter in force, or a new one. */
  function Current(table: Table, key: string, now: int, window: int): Counter {
    if LiveAt(table, key, now) then table[key] else Counter(0, now + window)
  }

  function Touched(table: Table, key: string, now: int, window: int): Table {
    table[key := Current(table, key, now, window)]
  }

  function Bumped(table: Table, key: string): Table
    requires key in table
  {
    table[key := table[key].(count := table[key].count + 1)]
  }

  function RetryAfter(now: int, reset: int): int {
    if reset > now then reset - now else 0
  }

  /** allowIP on its table. */
  function DecideIP(table: Table, key: string, limit: Limit, now: int): (Table, Answer) {
    var counter := Current(table, key, now, limit.window);
    var touched := Touched(table, key, now, limit.window);
    if counter.count >= limit.count then (touched, Refused(ByIP, RetryAfter(now, counter.reset)))
    else (Bumped(touched, key), Allowed)
  }

  /** allow on its two tables. */
  function DecideBoth(byIP: Table, byKey: Table, ip: string, key: string, ipLimit: Limit, keyLimit: Limit, now: int)
    : (Table, Table, Answer)
  {
    var ipCounter := Current(byIP, ip, now, ipLimit.window);
    var ips := Touched(byIP, ip, now, ipLimit.window);
    if ipCounter.count >= ipLimit.count then (ips, byKey, Refused(ByIP, RetryAfter(now, ipCounter.reset)))
    else
      var keyCounter := Current(byKey, key, now, keyLimit.window);
      var keys := Touched(byKey, key, now, keyLimit.window);
      if keyCounter.count >= keyLimit.count then (ips, keys, Refused(ByKey, RetryAfter(now, keyCounter.reset)))
      else (Bumped(ips, ip), Bumped(keys, key), Allowed)
  }

  function Swept(table: Table, now: int): Table {
    map key <- table | now < table[key].reset :: table[key]
  }

  function Total(tables: seq<Table>): nat {
    if tables == [] then 0 else Total(tables[..|tables| - 1]) + |tables[|tables| - 1]|
  }

  /** `after` holds some of the entries of `before`, unchanged. */
  predicate SubTable(after: Table, before: Table) {
    after.Keys <= before.Keys && forall key <- after :: after[key] == before[key]
  }

  /** Eviction under a cap: within it, nothing goes; over it, the cap is met with at most nine
      entries to spare, and a table loses a second entry only when those before it are empty. */
  ghost predicate Evicted(before: seq<Table>, after: seq<Table>, cap: nat) {
    && |after| == |before|
    && (forall i | 0 <= i < |before| :: SubTable(after[i], before[i]))
    && (Total(before) <= cap ==> after == before)
    && (Total(before) > cap ==> cap - (TABLES - 1) <= Total(after) <= cap)
    && (forall i, j | 0 <= j < i < |before| && |after[i]| + 1 < |before[i]| :: after[j] == map[])
  }

  lemma {:induction false} TotalUpdate(tables: seq<Table>, i: nat, table: Table)
    requires i < |tables|
    ensures Total(tables[i := table]) == Total(tables) - |tables[i]| + |table|
  {
    var n := |tables| - 1;
    if i == n {
      assert tables[i := table][..n] == tables[..n];
    } else {
      TotalUpdate(tables[..n], i, table);
      assert tables[i := table][..n] == tables[..n][i := table];
    }
  }

  lemma {:induction false} TotalEmpty(tables: seq<Table>)
    requires forall i | 0 <= i < |tables| :: tables[i] == map[]
    ensures Total(tables) == 0
  {
    if tables != [] {
      TotalEmpty(tables[..|tables| - 1]);
    }
  }

  lemma RemovedSize(table: Table, key: string)
    requires key in table
    ensures |table - {key}| == |table| - 1
  {
    assert table.Keys == (table - {key}).Keys + {key};
  }

  class InMemoryLimiter {
    var tables: seq<Table>
    var callCount: nat

    ghost predicate Valid()
      reads this
    {
      |tables| == TABLES
    }

    constructor ()
      ensures Valid() && tables == seq(TABLES, i => map[]) && callCount == 0
    {
      tables := seq(TABLES, i => map[]);
      callCount := 0;
    }

    method SweepExpired(now: int)
      requires Valid()
      modifies this`tables
      ensures Valid()
      ensures forall i | 0 <= i < TABLES :: tables[i] == Swept(old(tables)[i], now)
    {
      for i := 0 to TABLES
        invariant Valid()
        invariant forall j | 0 <= j < i :: tables[j] == Swept(old(tables)[j], now)
        invariant forall j | i <= j < TABLES :: tables[j] == old(tables)[j]
      {
        var table := SweepTable(tables[i], now);
        tables := tables[i := table];
      }
    }

    method SweepTable(table: Table, now: int) returns (swept: Table)
      ensures swept == Swept(table, now)
    {
      swept := table;
      var rest := table.Keys;
      while rest != {}
        invariant rest <= table.Keys
        invariant swept.Keys == rest + Swept(table, now).Keys
        invariant forall key <- swept :: swept[key] == table[key]
        decreases rest
      {
        var key :| key in rest;
        rest := rest - {key};
        if now >= table[key].reset {
          swept := swept - {key};
        }
      }
    }

    /** clearMap: one entry goes before the total is looked at again. */
    method ClearTable(i: nat, total: int, cap: nat) returns (left: int)
      requires Valid() && i < TABLES && total == Total(tables)
      modifies this`tables
      ensures Valid() && left == Total(tables)
      ensures forall j | 0 <= j < TABLES && j != i :: tables[j] == old(tables)[j]
      ensures SubTable(tables[i], old(tables)[i])
      ensures old(tables)[i] == map[] ==> left == total
      ensures old(tables)[i] != map[] ==> left < total && (left <= cap || tables[i] == map[])
      ensures left >= (if total <= cap then total - 1 else cap)
      ensures |tables[i]| + 1 < |old(tables)[i]| ==> total > cap
    {
      left := total;
      var before := tables[i];
      var rest := before.Keys;
      while rest != {}
        invariant Valid() && left == Total(tables) && rest == tables[i].Keys
        invariant forall j | 0 <= j < TABLES && j != i :: tables[j] == old(tables)[j]
        invariant SubTable(tables[i], before)
        invariant tables[i] == before || (left < total && left > cap)
        invariant tables[i] == before ==> left == total
        invariant left - |tables[i]| == total - |before|
        decreases rest
      {
        var key :| key in rest;
        rest := rest - {key};
        var smaller := tables[i] - {key};
        TotalUpdate(tables, i, smaller);
        RemovedSize(tables[i], key);
        tables := tables[i := smaller];
        left := left - 1;
        if left <= cap {
          return;
        }
      }
      assert tables[i].Keys == {};
    }

    method EnforceMaxEntries(cap: nat)
      requires Valid()
      modifies this`tables
      ensures Valid() && Evicted(old(tables), tables, cap)
    {
      var total := CountEntries();
      if total <= cap {
        return;
      }
      for i := 0 to TABLES
        invariant Valid() && total == Total(tables)
        invariant forall j | 0 <= j < i :: SubTable(tables[j], old(tables)[j])
        invariant forall j | i <= j < TABLES :: tables[j] == old(tables)[j]
        invariant total > cap ==> forall j | 0 <= j < i :: tables[j] == map[]
        invariant total <= cap ==> i > 0 && total >= cap - (i - 1)
        invariant forall k, j | 0 <= j < k < i && |tables[k]| + 1 < |old(tables)[k]| :: tables[j] == map[]
      {
        total := ClearTable(i, total, cap);
      }
      if total > cap {
        TotalEmpty(tables);
        assert false;
      }
    }

    /** The sum of the sizes, table by table. */
    method CountEntries() returns (total: nat)
      requires Valid()
      ensures total == Total(tables)
    {
      total := 0;
      for i := 0 to TABLES
        invariant total == Total(tables[..i])
      {
        assert tables[..i + 1][..i] == tables[..i];
        total := total + |tables[i]|;
      }
      assert tables[..TABLES] == tables;
    }

    /** Every so many calls, expired entries are swept and the cap enforced. */
    method Housekeep(now: int, cleanupEvery: nat, cap: nat)
      requires Valid() && cleanupEvery > 0
      modifies this
      ensures Valid() && callCount == old(callCount) + 1
      ensures Maintained(old(tables), tables, callCount % cleanupEvery == 0, now, cap)
    {
      callCount := callCount + 1;
      if callCount % cleanupEvery == 0 {
        SweepExpired(now);
        ghost var swept := tables;
        EnforceMaxEntries(cap);
        assert swept == SweptAll(old(tables), now);
      }
    }

    method AllowIP(t: nat, ip: string, limit: Limit, now: int, cleanupEvery: nat, cap: nat) returns (answer: Answer)
      requires Valid() && t < TABLES && cleanupEvery > 0
      modifies this
      ensures Valid() && callCount == old(callCount) + 1
      ensures exists kept ::
        && Maintained(old(tables), kept, callCount % cleanupEvery == 0, now, cap)
        && tables == kept[t := DecideIP(kept[t], ip, limit, now).0] && answer == DecideIP(kept[t], ip, limit, now).1
    {
      Housekeep(now, cleanupEvery, cap);
      ghost var kept := tables;
      var counter := GetCounter(t, ip, now, limit.window);
      if counter.count >= limit.count {
        return Refused(ByIP, RetryAfter(now, counter.reset));
      }
      tables := tables[t := Bumped(tables[t], ip)];
      return Allowed;
    }

    /** Both counters are looked at before either is incremented. */
    method Allow(t: nat, u: nat, ip: string, key: string, ipLimit: Limit, keyLimit: Limit, now: int, cleanupEvery: nat,
                 cap: nat)
      returns (answer: Answer)
      requires Valid() && t < TABLES && u < TABLES && t != u && cleanupEvery > 0
      modifies this
      ensures Valid() && callCount == old(callCount) + 1
      ensures exists kept ::
        && Maintained(old(tables), kept, callCount % cleanupEvery == 0, now, cap)
        && (var (ips, keys, verdict) := DecideBoth(kept[t], kept[u], ip, key, ipLimit, keyLimit, now);
            tables == kept[t := ips][u := keys] && answer == verdict)
    {
      Housekeep(now, cleanupEvery, cap);
      ghost var kept := tables;
      var ipCounter := GetCounter(t, ip, now, ipLimit.window);
      if ipCounter.count >= ipLimit.count {
        assert tables == kept[t := tables[t]][u := kept[u]];
        return Refused(ByIP, RetryAfter(now, ipCounter.reset));
      }
      var keyCounter := GetCounter(u, key, now, keyLimit.window);
      if keyCounter.count >= keyLimit.count {
        assert tables == kept[t := tables[t]][u := tables[u]];
        return Refused(ByKey, RetryAfter(now, keyCounter.reset));
      }
      tables := tables[t := Bumped(tables[t], ip)];
      tables := tables[u := Bumped(tables[u], key)];
      assert tables == kept[t := tables[t]][u := tables[u]];
      return Allowed;
    }

    method GetCounter(t: nat, key: string, now: int, window: int) returns (counter: Counter)
      requires Valid() && t < TABLES
      modifies this`tables
      ensures Valid() && counter == Current(old(tables)[t], key, now, window)
      ensures tables == old(tables)[t := Touched(old(tables)[t], key, now, window)]
    {
      if key !in tables[t] || now >= tables[t][key].reset {
        tables := tables[t := tables[t][key := Counter(0, now + window)]];
      } else {
        assert Touched(tables[t], key, now, window) == tables[t];
        assert tables[t := tables[t]] == tables;
      }
      counter := tables[t][key];
    }
  }

  function SweptAll(tables: seq<Table>, now: int): seq<Table> {
    seq(|tables|, i requires 0 <= i < |tables| => Swept(tables[i], now))
  }

  ghost predicate Maintained(before: seq<Table>, after: seq<Table>, due: bool, now: int, cap: nat) {
    |before| == |after| == TABLES &&
    if due then Evicted(SweptAll(before, now), after, cap) else after == before
  }
}
