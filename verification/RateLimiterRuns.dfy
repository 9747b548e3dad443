/** The cache limiter of internal/ratelimiter/cache.go, how its answers relate to the in-memory
    limiter's, and what either lets through. */
module RateLimiterRuns {
  import opened Wrappers
  import opened Decimal
  import opened Redis
  import opened RateLimiter

  /** Table and caller: the parts of a rate-limit key. */
  type CacheKey = (nat, string)

  datatype CacheAnswer = Answered(answer: Answer) | Failed(error: RedisError)

  class CacheLimiter {
    const server: Server<CacheKey>

    constructor (s: Server<CacheKey>)
      ensures server == s
    {
      server := s;
    }

    method AllowIP(t: nat, ip: string, limit: Limit) returns (answer: CacheAnswer)
      modifies server`entries
      ensures CacheStep(old(server.entries), server.now, (t, ip), limit, ByIP) == (server.entries, answer)
    {
      var count, remaining, error := server.Increment((t, ip), limit.window / MILLISECOND);
      if error.Some? {
        return Failed(error.value);
      }
      if count > limit.count {
        return Answered(Refused(ByIP, remaining * MILLISECOND));
      }
      return Answered(Allowed);
    }

    /** The address is counted before the other key is looked at, and stays counted if that refuses. */
    method Allow(t: nat, u: nat, ip: string, key: string, ipLimit: Limit, keyLimit: Limit) returns (answer: CacheAnswer)
      modifies server`entries
      ensures var (first, verdict) := CacheStep(old(server.entries), server.now, (t, ip), ipLimit, ByIP);
        (server.entries, answer) ==
          if verdict == Answered(Allowed) then CacheStep(first, server.now, (u, key), keyLimit, ByKey)
          else (first, verdict)
    {
      var ipCount, ipTTL, error := server.Increment((t, ip), ipLimit.window / MILLISECOND);
      if error.Some? {
        return Failed(error.value);
      }
      if ipCount > ipLimit.count {
        return Answered(Refused(ByIP, ipTTL * MILLISECOND));
      }
      var keyCount, keyTTL, keyError := server.Increment((u, key), keyLimit.window / MILLISECOND);
      if keyError.Some? {
        return Failed(keyError.value);
      }
      if keyCount > keyLimit.count {
        return Answered(Refused(ByKey, keyTTL * MILLISECOND));
      }
      return Answered(Allowed);
    }
  }

  /** One increment and the comparison with the limit; `ms` is the server's clock. */
  function CacheStep(entries: map<CacheKey, Entry>, ms: int, key: CacheKey, limit: Limit, scope: Scope)
    : (map<CacheKey, Entry>, CacheAnswer)
  {
    var current := Lookup(entries, key, ms);
    match IncrementedEntry(current, limit.window / MILLISECOND, ms)
    case Err(e) => (entries, Failed(e))
    case Ok(next) =>
      var count := if current.Some? then Value(current.value.value) + 1 else 1;
      var remaining := if next.Some? then Max0(Remaining(next.value, ms)) else 0;
      (if next.Some? then entries[key := next.value] else entries - {key},
       if count > limit.count then Answered(Refused(scope, remaining * MILLISECOND)) else Answered(Allowed))
  }

  // Runs of attempts by address

  /** An attempt, in nanoseconds; `due` says that the sweep runs first. */
  datatype Attempt = Attempt(table: nat, ip: string, now: int, due: bool)

  /** The instant as the server's clock shows it. */
  function Ms(t: int): int { t / MILLISECOND }

  predicate LimitsOk(limits: seq<Limit>) {
    |limits| == TABLES && forall t | 0 <= t < TABLES :: limits[t].count > 0 && limits[t].window > 0
  }

  /** The tables the limiter decides on when its entries stay within the cap. */
  function Kept(tables: seq<Table>, attempt: Attempt): seq<Table> {
    if attempt.due then SweptAll(tables, attempt.now) else tables
  }

  lemma KeptIsMaintained(before: seq<Table>, after: seq<Table>, attempt: Attempt, cap: nat)
    requires Maintained(before, after, attempt.due, attempt.now, cap)
    requires attempt.due ==> Total(SweptAll(before, attempt.now)) <= cap
    ensures after == Kept(before, attempt)
  {
  }

  function MemoryNext(limits: seq<Limit>, tables: seq<Table>, a: Attempt): (seq<Table>, bool)
    requires |tables| == |limits| == TABLES && a.table < TABLES
  {
    var kept := Kept(tables, a);
    var decision := DecideIP(kept[a.table], a.ip, limits[a.table], a.now);
    (kept[a.table := decision.0], decision.1 == Allowed)
  }

  function CacheNext(limits: seq<Limit>, entries: map<CacheKey, Entry>, a: Attempt): (map<CacheKey, Entry>, bool)
    requires |limits| == TABLES && a.table < TABLES
  {
    var (next, answer) := CacheStep(entries, Ms(a.now), (a.table, a.ip), limits[a.table], ByIP);
    (next, answer == Answered(Allowed))
  }

  predicate InOrder(attempts: seq<Attempt>, from: int) {
    attempts == [] || (from <= attempts[0].now && attempts[0].table < TABLES && InOrder(attempts[1..], attempts[0].now))
  }

  function MemoryRun(limits: seq<Limit>, tables: seq<Table>, attempts: seq<Attempt>, from: int): seq<bool>
    requires |tables| == |limits| == TABLES && InOrder(attempts, from)
    decreases |attempts|
  {
    if attempts == [] then []
    else
      var (next, allowed) := MemoryNext(limits, tables, attempts[0]);
      [allowed] + MemoryRun(limits, next, attempts[1..], attempts[0].now)
  }

  function CacheRun(limits: seq<Limit>, entries: map<CacheKey, Entry>, attempts: seq<Attempt>, from: int): seq<bool>
    requires |limits| == TABLES && InOrder(attempts, from)
    decreases |attempts|
  {
    if attempts == [] then []
    else
      var (next, allowed) := CacheNext(limits, entries, attempts[0]);
      [allowed] + CacheRun(limits, next, attempts[1..], attempts[0].now)
  }

  // How the two limiters see one counter

  /** Windows that the server can keep: it counts whole milliseconds. */
  predicate Measurable(limits: seq<Limit>) {
    LimitsOk(limits) && forall t | 0 <= t < TABLES :: limits[t].window >= MILLISECOND
  }

  /** When a caller's current window began and how many attempts it has seen, refused ones included. */
  datatype Window = Window(start: int, attempts: nat)

  type Windows = map<CacheKey, Window>

  /** The in-memory counter of a window is in force. */
  predicate InMemory(start: int, window: int, now: int) {
    now < start + window
  }

  /** The cache counter of a window is in force. */
  predicate InCache(start: int, window: int, now: int) {
    Ms(now) <= Ms(start) + Ms(window)
  }

  /** Between the two ends of a window. */
  predicate InGap(start: int, window: int, now: int) {
    InMemory(start, window, now) != InCache(start, window, now)
  }

  /** A window of whole milliseconds ends in memory first, and the gap lasts until the millisecond of
      its end is over: a millisecond, less what had passed of the one in which it began. Otherwise
      either end may come first. The ends are never more than a millisecond apart. */
  lemma GapIs(start: int, window: int, now: int)
    requires InGap(start, window, now)
    ensures -MILLISECOND < now - (start + window) < MILLISECOND
    ensures window % MILLISECOND == 0 ==> start + window <= now
    ensures now < start + window ==> Ms(start) + Ms(window) < Ms(now)
  {
  }

  lemma WholeWindowGap(start: int, window: int, now: int)
    requires window % MILLISECOND == 0
    ensures InGap(start, window, now) <==> start + window <= now && Ms(now) <= Ms(start + window)
  {
  }

  function NextWindow(windows: Windows, key: CacheKey, limit: Limit, now: int): Windows {
    windows[key := if key in windows && InMemory(windows[key].start, limit.window, now)
                   then windows[key].(attempts := windows[key].attempts + 1) else Window(now, 1)]
  }

  /** The attempt finds a window between its two ends. */
  predicate FindsGap(windows: Windows, key: CacheKey, limit: Limit, now: int) {
    key in windows && InGap(windows[key].start, limit.window, now)
  }

  function Min(a: nat, b: nat): nat { if a <= b then a else b }

  /** The counters of a key in both limiters are those of its window, while they last. Refused
      attempts count in the cache only. */
  ghost predicate SameKey(windows: Windows, table: Table, entries: map<CacheKey, Entry>, key: CacheKey, limit: Limit,
                          now: int)
  {
    if key !in windows then !LiveAt(table, key.1, now) && Lookup(entries, key, Ms(now)).None?
    else
      var w := windows[key];
      && w.attempts > 0 && w.start <= now
      && (LiveAt(table, key.1, now) <==> InMemory(w.start, limit.window, now))
      && (LiveAt(table, key.1, now) ==> table[key.1] == Counter(Min(w.attempts, limit.count), w.start + limit.window))
      && (Lookup(entries, key, Ms(now)).Some? <==> InCache(w.start, limit.window, now))
      && (Lookup(entries, key, Ms(now)).Some? ==>
            && IsNumeral(entries[key].value) && Value(entries[key].value) == w.attempts
            && entries[key].deadline == Some(Ms(w.start) + Ms(limit.window)))
  }

  ghost predicate Same(limits: seq<Limit>, windows: Windows, tables: seq<Table>, entries: map<CacheKey, Entry>,
                       now: int)
  {
    |tables| == |limits| == TABLES &&
    forall t: nat, ip: string | t < TABLES :: SameKey(windows, tables[t], entries, (t, ip), limits[t], now)
  }

  lemma SameLater(limits: seq<Limit>, windows: Windows, tables: seq<Table>, entries: map<CacheKey, Entry>, now: int,
                  a: Attempt)
    requires Same(limits, windows, tables, entries, now) && now <= a.now
    ensures Same(limits, windows, Kept(tables, a), entries, a.now)
  {
    assert Ms(now) <= Ms(a.now);
    forall t: nat, ip: string | t < TABLES
      ensures SameKey(windows, Kept(tables, a)[t], entries, (t, ip), limits[t], a.now)
    {
      hide Ms;
      assert SameKey(windows, tables[t], entries, (t, ip), limits[t], now);
    }
  }

  /** On counters of one window, the two limiters answer an attempt differently exactly when it comes
      between the window's two ends with the limit used up. */
  lemma AnswersDiffer(limit: Limit, windows: Windows, table: Table, entries: map<CacheKey, Entry>, key: CacheKey,
                      now: int)
    requires limit.count > 0 && limit.window >= MILLISECOND
    requires SameKey(windows, table, entries, key, limit, now)
    ensures (DecideIP(table, key.1, limit, now).1 == Allowed) !=
            (CacheStep(entries, Ms(now), key, limit, ByIP).1 == Answered(Allowed)) <==>
      FindsGap(windows, key, limit, now) && windows[key].attempts >= limit.count
  {
    hide Ms;
  }

  lemma SameKeyNext(limit: Limit, windows: Windows, table: Table, entries: map<CacheKey, Entry>, key: CacheKey,
                    now: int)
    requires limit.count > 0 && limit.window >= MILLISECOND
    requires SameKey(windows, table, entries, key, limit, now) && !FindsGap(windows, key, limit, now)
    ensures SameKey(NextWindow(windows, key, limit, now), DecideIP(table, key.1, limit, now).0,
                    CacheStep(entries, Ms(now), key, limit, ByIP).0, key, limit, now)
  {
    assert Ms(limit.window) > 0;
    assert Value(Numeral(1)) == 1;
    assert limit.window / MILLISECOND == Ms(limit.window);
    hide Ms;
  }

  lemma OtherKeys(limit: Limit, other: Limit, windows: Windows, table: Table, entries: map<CacheKey, Entry>,
                  key: CacheKey, changed: CacheKey, now: int)
    requires key != changed && SameKey(windows, table, entries, key, other, now)
    ensures SameKey(NextWindow(windows, changed, limit, now),
                    if key.0 == changed.0 then DecideIP(table, changed.1, limit, now).0 else table,
                    CacheStep(entries, Ms(now), changed, limit, ByIP).0, key, other, now)
  {
    hide Ms;
  }

  function WindowsNext(limits: seq<Limit>, windows: Windows, a: Attempt): Windows
    requires |limits| == TABLES && a.table < TABLES
  {
    NextWindow(windows, (a.table, a.ip), limits[a.table], a.now)
  }

  predicate GapAt(limits: seq<Limit>, windows: Windows, a: Attempt)
    requires |limits| == TABLES && a.table < TABLES
  {
    FindsGap(windows, (a.table, a.ip), limits[a.table], a.now)
  }

  predicate UsedUp(limits: seq<Limit>, windows: Windows, a: Attempt)
    requires |limits| == TABLES && a.table < TABLES
  {
    (a.table, a.ip) in windows && windows[(a.table, a.ip)].attempts >= limits[a.table].count
  }

  lemma DifferAt(limits: seq<Limit>, windows: Windows, tables: seq<Table>, entries: map<CacheKey, Entry>, a: Attempt,
                 now: int)
    requires Measurable(limits) && a.table < TABLES && now <= a.now
    requires Same(limits, windows, tables, entries, now)
    ensures MemoryNext(limits, tables, a).1 != CacheNext(limits, entries, a).1 <==>
      GapAt(limits, windows, a) && UsedUp(limits, windows, a)
  {
    SameLater(limits, windows, tables, entries, now, a);
    hide DecideIP, CacheStep, SameKey, Kept, FindsGap, Ms;
    var key := (a.table, a.ip);
    assert SameKey(windows, Kept(tables, a)[a.table], entries, key, limits[a.table], a.now);
    AnswersDiffer(limits[a.table], windows, Kept(tables, a)[a.table], entries, key, a.now);
  }

  lemma SameNext(limits: seq<Limit>, windows: Windows, tables: seq<Table>, entries: map<CacheKey, Entry>, a: Attempt,
                 now: int)
    requires Measurable(limits) && a.table < TABLES && now <= a.now
    requires Same(limits, windows, tables, entries, now) && !GapAt(limits, windows, a)
    ensures Same(limits, WindowsNext(limits, windows, a), MemoryNext(limits, tables, a).0,
                 CacheNext(limits, entries, a).0, a.now)
  {
    var kept := Kept(tables, a);
    var key := (a.table, a.ip);
    var limit := limits[a.table];
    SameLater(limits, windows, tables, entries, now, a);
    hide DecideIP, CacheStep, SameKey, Kept, NextWindow, FindsGap, Ms;
    assert SameKey(windows, kept[a.table], entries, key, limit, a.now);
    SameKeyNext(limit, windows, kept[a.table], entries, key, a.now);
    var memory := MemoryNext(limits, tables, a).0;
    var cache := CacheNext(limits, entries, a).0;
    forall t: nat, ip: string | t < TABLES
      ensures SameKey(WindowsNext(limits, windows, a), memory[t], cache, (t, ip), limits[t], a.now)
    {
      assert SameKey(windows, kept[t], entries, (t, ip), limits[t], a.now);
      if (t, ip) != key {
        OtherKeys(limit, limits[t], windows, kept[t], entries, (t, ip), key, a.now);
      }
    }
  }

  /** No attempt comes between the two ends of its caller's window. */
  predicate OffGaps(limits: seq<Limit>, windows: Windows, attempts: seq<Attempt>, from: int)
    requires |limits| == TABLES && InOrder(attempts, from)
    decreases |attempts|
  {
    attempts == [] ||
    (!GapAt(limits, windows, attempts[0]) &&
     OffGaps(limits, WindowsNext(limits, windows, attempts[0]), attempts[1..], attempts[0].now))
  }

  /** The windows that a run of attempts leaves. */
  function WindowsAfter(limits: seq<Limit>, windows: Windows, attempts: seq<Attempt>, from: int): Windows
    requires |limits| == TABLES && InOrder(attempts, from)
    decreases |attempts|
  {
    if attempts == [] then windows
    else WindowsAfter(limits, WindowsNext(limits, windows, attempts[0]), attempts[1..], attempts[0].now)
  }

  lemma {:induction false} SameRuns(limits: seq<Limit>, windows: Windows, tables: seq<Table>,
                                    entries: map<CacheKey, Entry>, attempts: seq<Attempt>, from: int)
    requires Measurable(limits) && InOrder(attempts, from) && Same(limits, windows, tables, entries, from)
    requires OffGaps(limits, windows, attempts, from)
    ensures MemoryRun(limits, tables, attempts, from) == CacheRun(limits, entries, attempts, from)
    decreases |attempts|
  {
    if attempts != [] {
      hide MemoryNext, CacheNext, WindowsNext, Same, GapAt, Measurable, UsedUp;
      assert |tables| == TABLES by { SameSized(limits, windows, tables, entries, from); }
      DifferAt(limits, windows, tables, entries, attempts[0], from);
      SameNext(limits, windows, tables, entries, attempts[0], from);
      SameRuns(limits, WindowsNext(limits, windows, attempts[0]), MemoryNext(limits, tables, attempts[0]).0,
               CacheNext(limits, entries, attempts[0]).0, attempts[1..], attempts[0].now);
    }
  }

  lemma SameSized(limits: seq<Limit>, windows: Windows, tables: seq<Table>, entries: map<CacheKey, Entry>, now: int)
    requires Same(limits, windows, tables, entries, now)
    ensures |tables| == |limits| == TABLES
  {
  }

  function NoTables(): seq<Table> {
    seq(TABLES, i => map[])
  }

  /** The two limiters answer every sequence of attempts by address alike, whenever sweeps run, as long
      as no attempt comes between the two ends of its caller's window. */
  lemma CacheIsMemoryOffGaps(limits: seq<Limit>, attempts: seq<Attempt>, from: int)
    requires Measurable(limits) && InOrder(attempts, from) && OffGaps(limits, map[], attempts, from)
    ensures MemoryRun(limits, NoTables(), attempts, from) == CacheRun(limits, map[], attempts, from)
  {
    SameRuns(limits, map[], NoTables(), map[], attempts, from);
  }

  lemma {:induction false} DifferAfter(limits: seq<Limit>, windows: Windows, tables: seq<Table>,
                                       entries: map<CacheKey, Entry>, attempts: seq<Attempt>, a: Attempt, from: int)
    requires Measurable(limits) && InOrder(attempts, from) && InOrder(attempts + [a], from) && a.table < TABLES
    requires Same(limits, windows, tables, entries, from) && OffGaps(limits, windows, attempts, from)
    ensures |tables| == TABLES
    ensures var after := WindowsAfter(limits, windows, attempts, from);
      MemoryRun(limits, tables, attempts + [a], from) != CacheRun(limits, entries, attempts + [a], from) <==>
      GapAt(limits, after, a) && UsedUp(limits, after, a)
    decreases |attempts|
  {
    hide MemoryNext, CacheNext, WindowsNext, Same, GapAt, Measurable, UsedUp;
    SameSized(limits, windows, tables, entries, from);
    var first := (attempts + [a])[0];
    DifferAt(limits, windows, tables, entries, first, from);
    if attempts == [] {
      assert attempts + [a] == [a];
      OneAnswer(limits, tables, entries, a, from);
    } else {
      assert (attempts + [a])[1..] == attempts[1..] + [a];
      SameNext(limits, windows, tables, entries, first, from);
      DifferAfter(limits, WindowsNext(limits, windows, first), MemoryNext(limits, tables, first).0,
                  CacheNext(limits, entries, first).0, attempts[1..], a, first.now);
      Heads(MemoryNext(limits, tables, first).1,
            MemoryRun(limits, MemoryNext(limits, tables, first).0, attempts[1..] + [a], first.now),
            CacheRun(limits, CacheNext(limits, entries, first).0, attempts[1..] + [a], first.now));
    }
  }

  lemma OneAnswer(limits: seq<Limit>, tables: seq<Table>, entries: map<CacheKey, Entry>, a: Attempt, from: int)
    requires |tables| == |limits| == TABLES && InOrder([a], from)
    ensures MemoryRun(limits, tables, [a], from) == [MemoryNext(limits, tables, a).1]
    ensures CacheRun(limits, entries, [a], from) == [CacheNext(limits, entries, a).1]
  {
    hide MemoryNext, CacheNext;
    assert [a][1..] == [];
  }

  lemma Heads(x: bool, s: seq<bool>, t: seq<bool>)
    ensures [x] + s == [x] + t <==> s == t
  {
    assert ([x] + s)[1..] == s && ([x] + t)[1..] == t;
  }

  /** After attempts outside the gaps, the answers first differ at an attempt exactly when it comes
      between the two ends of its caller's window and that many attempts have used the limit up. */
  lemma FirstDifference(limits: seq<Limit>, attempts: seq<Attempt>, a: Attempt, from: int)
    requires Measurable(limits) && InOrder(attempts, from) && InOrder(attempts + [a], from) && a.table < TABLES
    requires OffGaps(limits, map[], attempts, from)
    ensures var after := WindowsAfter(limits, map[], attempts, from);
      MemoryRun(limits, NoTables(), attempts + [a], from) != CacheRun(limits, map[], attempts + [a], from) <==>
      GapAt(limits, after, a) && UsedUp(limits, after, a)
  {
    DifferAfter(limits, map[], NoTables(), map[], attempts, a, from);
  }

  /** Two attempts of one caller who may make one: the second is answered differently exactly when it
      comes in the gap that the first one's window has. */
  lemma SecondAttempt(limits: seq<Limit>, t: nat, ip: string, start: int, now: int)
    requires Measurable(limits) && t < TABLES && limits[t].count == 1 && start <= now
    ensures var attempts := [Attempt(t, ip, start, false), Attempt(t, ip, now, false)];
      InOrder(attempts, start) &&
      (MemoryRun(limits, NoTables(), attempts, start) != CacheRun(limits, map[], attempts, start) <==>
       InGap(start, limits[t].window, now))
  {
    var first, second := Attempt(t, ip, start, false), Attempt(t, ip, now, false);
    assert [first] + [second] == [first, second] && [first][1..] == [];
    assert InOrder([], now) && InOrder([second], start) && [second][1..] == [];
    assert [first, second][1..] == [second];
    var after := WindowsNext(limits, map[], first);
    assert WindowsAfter(limits, map[], [first], start) == after && after[(t, ip)] == Window(start, 1);
    hide MemoryRun, CacheRun, InGap;
    FirstDifference(limits, [first], second, start);
  }

  /** A window of a second begun half a millisecond after a whole one: the answers agree 0.2 ms after the
      millisecond in which it ends has begun, and differ 0.7 ms after. A window of a second and half a
      millisecond, begun 0.9 ms after: the cache is the first to forget. */
  lemma GapExamples()
    ensures !InGap(500_000, 1_000_000_000, 1_000_200_000)
    ensures InGap(500_000, 1_000_000_000, 1_000_700_000) && !InMemory(500_000, 1_000_000_000, 1_000_700_000)
    ensures InGap(900_000, 1_000_500_000, 1_001_200_000) && InMemory(900_000, 1_000_500_000, 1_001_200_000)
  {
  }

  // What gets through

  /** Attempts of one key let through from `a` on and before `b`. */
  function Through(t: nat, ip: string, a: int, b: int, attempts: seq<Attempt>, answers: seq<bool>): nat
    requires |attempts| == |answers|
  {
    if attempts == [] then 0
    else
      (if attempts[0].table == t && attempts[0].ip == ip && a <= attempts[0].now < b && answers[0] then 1 else 0)
      + Through(t, ip, a, b, attempts[1..], answers[1..])
  }

  /** How many attempts of a key can still get through before the end of an interval one window long. */
  function Budget(table: Table, ip: string, limit: Limit, now: int, a: int): int {
    var b := a + limit.window;
    if now < a then 2 * limit.count
    else if now >= b then 0
    else if LiveAt(table, ip, now) then
      (if table[ip].count < limit.count then limit.count - table[ip].count else 0) +
          (if table[ip].reset < b then limit.count else 0)
    else limit.count
  }

  lemma {:induction false} RunLength(limits: seq<Limit>, tables: seq<Table>, attempts: seq<Attempt>, from: int)
    requires |tables| == |limits| == TABLES && InOrder(attempts, from)
    ensures |MemoryRun(limits, tables, attempts, from)| == |attempts|
    decreases |attempts|
  {
    if attempts != [] {
      RunLength(limits, MemoryNext(limits, tables, attempts[0]).0, attempts[1..], attempts[0].now);
    }
  }

  /** One attempt spends what it lets through. */
  lemma BudgetStep(limits: seq<Limit>, tables: seq<Table>, attempt: Attempt, from: int, t: nat, ip: string, a: int)
    requires LimitsOk(limits) && |tables| == TABLES && attempt.table < TABLES && t < TABLES && from <= attempt.now
    ensures var (next, allowed) := MemoryNext(limits, tables, attempt);
      Budget(tables[t], ip, limits[t], from, a) >=
      Budget(next[t], ip, limits[t], attempt.now, a) +
      (if attempt.table == t && attempt.ip == ip && a <= attempt.now < a + limits[t].window && allowed then 1 else 0)
  {
  }

  lemma {:induction false} ThroughBudget(limits: seq<Limit>, tables: seq<Table>, attempts: seq<Attempt>, from: int,
                                         t: nat, ip: string, a: int)
    requires LimitsOk(limits) && |tables| == TABLES && InOrder(attempts, from) && t < TABLES
    ensures |MemoryRun(limits, tables, attempts, from)| == |attempts|
    ensures Through(t, ip, a, a + limits[t].window, attempts, MemoryRun(limits, tables, attempts, from)) <=
            Budget(tables[t], ip, limits[t], from, a)
    decreases |attempts|
  {
    RunLength(limits, tables, attempts, from);
    if attempts != [] {
      hide Budget, MemoryNext;
      var next := MemoryNext(limits, tables, attempts[0]).0;
      BudgetStep(limits, tables, attempts[0], from, t, ip, a);
      ThroughBudget(limits, next, attempts[1..], attempts[0].now, t, ip, a);
      assert MemoryRun(limits, tables, attempts, from)[1..] == MemoryRun(limits, next, attempts[1..], attempts[0].now);
    } else {
      BudgetNotNegative(tables[t], ip, limits[t], from, a);
    }
  }

  lemma BudgetNotNegative(table: Table, ip: string, limit: Limit, now: int, a: int)
    ensures Budget(table, ip, limit, now, a) >= 0
  {
  }

  /** Within any interval one window long, at most twice the limit gets through. */
  lemma AtMostTwiceTheLimit(limits: seq<Limit>, attempts: seq<Attempt>, from: int, t: nat, ip: string, a: int)
    requires LimitsOk(limits) && InOrder(attempts, from) && t < TABLES
    ensures |MemoryRun(limits, NoTables(), attempts, from)| == |attempts|
    ensures Through(t, ip, a, a + limits[t].window, attempts, MemoryRun(limits, NoTables(), attempts, from)) <=
            2 * limits[t].count
  {
    ThroughBudget(limits, NoTables(), attempts, from, t, ip, a);
  }

  // How long a refused caller waits

  function MemoryAfter(limits: seq<Limit>, tables: seq<Table>, attempts: seq<Attempt>, from: int): (after: seq<Table>)
    requires |tables| == |limits| == TABLES && InOrder(attempts, from)
    ensures |after| == TABLES
    decreases |attempts|
  {
    if attempts == [] then tables
    else MemoryAfter(limits, MemoryNext(limits, tables, attempts[0]).0, attempts[1..], attempts[0].now)
  }

  function CacheAfter(limits: seq<Limit>, entries: map<CacheKey, Entry>, attempts: seq<Attempt>, from: int)
    : map<CacheKey, Entry>
    requires |limits| == TABLES && InOrder(attempts, from)
    decreases |attempts|
  {
    if attempts == [] then entries
    else CacheAfter(limits, CacheNext(limits, entries, attempts[0]).0, attempts[1..], attempts[0].now)
  }

  predicate Before(attempts: seq<Attempt>, end: int) {
    forall i | 0 <= i < |attempts| :: attempts[i].now < end
  }

  lemma {:induction false} FullUntilReset(limits: seq<Limit>, tables: seq<Table>, attempts: seq<Attempt>, from: int,
                                          t: nat, ip: string, reset: int)
    requires |tables| == |limits| == TABLES && InOrder(attempts, from) && t < TABLES && Before(attempts, reset)
    requires ip in tables[t] && tables[t][ip].count >= limits[t].count && tables[t][ip].reset == reset
    ensures var after := MemoryAfter(limits, tables, attempts, from)[t];
      ip in after && after[ip].count >= limits[t].count && after[ip].reset == reset
    decreases |attempts|
  {
    if attempts != [] {
      FullUntilReset(limits, MemoryNext(limits, tables, attempts[0]).0, attempts[1..], attempts[0].now, t, ip, reset);
    }
  }

  /** The wait that a refusal in memory names is exact: it is positive, and whatever attempts and sweeps
      come before it is over, the caller is let through again once it is over and not before. */
  lemma RetryAfterIsExact(limits: seq<Limit>, tables: seq<Table>, t: nat, ip: string, now: int, retryAfter: int,
                          attempts: seq<Attempt>, later: int)
    requires LimitsOk(limits) && |tables| == TABLES && t < TABLES
    requires DecideIP(tables[t], ip, limits[t], now).1 == Refused(ByIP, retryAfter)
    requires InOrder(attempts, now) && Before(attempts, now + retryAfter) && now <= later
    ensures retryAfter > 0
    ensures var after := MemoryAfter(limits, tables[t := DecideIP(tables[t], ip, limits[t], now).0], attempts, now);
      DecideIP(after[t], ip, limits[t], later).1 == Allowed <==> now + retryAfter <= later
  {
    var refused := tables[t := DecideIP(tables[t], ip, limits[t], now).0];
    FullUntilReset(limits, refused, attempts, now, t, ip, now + retryAfter);
  }

  lemma {:induction false} FullUntilDeadline(limits: seq<Limit>, entries: map<CacheKey, Entry>, attempts: seq<Attempt>,
                                             from: int, t: nat, ip: string, deadline: int)
    requires LimitsOk(limits) && InOrder(attempts, from) && t < TABLES
    requires Before(attempts, (deadline + 1) * MILLISECOND)
    requires (t, ip) in entries && entries[(t, ip)].deadline == Some(deadline)
    requires IsNumeral(entries[(t, ip)].value) && Value(entries[(t, ip)].value) >= limits[t].count
    ensures var after := CacheAfter(limits, entries, attempts, from);
      && (t, ip) in after && after[(t, ip)].deadline == Some(deadline)
      && IsNumeral(after[(t, ip)].value) && Value(after[(t, ip)].value) >= limits[t].count
    decreases |attempts|
  {
    if attempts != [] {
      assert Ms(attempts[0].now) <= deadline;
      FullUntilDeadline(limits, CacheNext(limits, entries, attempts[0]).0, attempts[1..], attempts[0].now, t, ip,
                        deadline);
    }
  }

  /** The wait that a refusal by the cache names ends within a millisecond of being let through: at its
      end the caller is still refused, and is let through from the next millisecond of the server's clock on. */
  lemma CacheRetryAfter(limits: seq<Limit>, entries: map<CacheKey, Entry>, t: nat, ip: string, now: int,
                        retryAfter: int, attempts: seq<Attempt>, later: int)
    requires Measurable(limits) && t < TABLES
    requires (t, ip) in entries ==> entries[(t, ip)].deadline.Some?
    requires CacheStep(entries, Ms(now), (t, ip), limits[t], ByIP).1 == Answered(Refused(ByIP, retryAfter))
    requires InOrder(attempts, now) && Before(attempts, now + retryAfter) && now <= later
    ensures var after := CacheAfter(limits, CacheStep(entries, Ms(now), (t, ip), limits[t], ByIP).0, attempts, now);
      CacheStep(after, Ms(later), (t, ip), limits[t], ByIP).1 == Answered(Allowed) <==> Ms(now + retryAfter) < Ms(later)
  {
    var refused := CacheStep(entries, Ms(now), (t, ip), limits[t], ByIP).0;
    var deadline := Ms(now) + retryAfter / MILLISECOND;
    FullUntilDeadline(limits, refused, attempts, now, t, ip, deadline);
  }

  // Two-key attempts

  /** The counter an attempt finds: the one that has not reset, or a new one. */
  predicate Finds(table: Table, key: string, now: int, window: int, found: Counter) {
    found == if key in table && now < table[key].reset then table[key] else Counter(0, now + window)
  }

  lemma BumpedIs(table: Table, key: string, now: int, window: int, found: Counter)
    requires Finds(table, key, now, window, found)
    ensures Bumped(Touched(table, key, now, window), key) == table[key := Counter(found.count + 1, found.reset)]
  {
  }

  /** One counter at the limit refuses and says when it resets; otherwise it goes up by one. Nothing else in
      the table changes. */
  lemma DecideIPIs(table: Table, key: string, limit: Limit, now: int, found: Counter)
    requires limit.window > 0 && Finds(table, key, now, limit.window, found)
    ensures DecideIP(table, key, limit, now) ==
      if found.count < limit.count then (table[key := Counter(found.count + 1, found.reset)], Allowed)
      else (table[key := found], Refused(ByIP, found.reset - now))
  {
    BumpedIs(table, key, now, limit.window, found);
  }

  /** In memory, an attempt counts on both keys if it is let through, and on neither if it is not: the address
      decides first, and a refusal says when the counter that refused resets. */
  lemma BothOrNeither(byIP: Table, byKey: Table, ip: string, key: string, ipLimit: Limit, keyLimit: Limit, now: int,
                      byIPFound: Counter, byKeyFound: Counter)
    requires ipLimit.window > 0 && keyLimit.window > 0
    requires Finds(byIP, ip, now, ipLimit.window, byIPFound) && Finds(byKey, key, now, keyLimit.window, byKeyFound)
    ensures DecideBoth(byIP, byKey, ip, key, ipLimit, keyLimit, now) ==
      if byIPFound.count >= ipLimit.count
      then (byIP[ip := byIPFound], byKey, Refused(ByIP, byIPFound.reset - now))
      else if byKeyFound.count >= keyLimit.count
      then (byIP[ip := byIPFound], byKey[key := byKeyFound], Refused(ByKey, byKeyFound.reset - now))
      else (byIP[ip := Counter(byIPFound.count + 1, byIPFound.reset)],
            byKey[key := Counter(byKeyFound.count + 1, byKeyFound.reset)], Allowed)
  {
    BumpedIs(byIP, ip, now, ipLimit.window, byIPFound);
    BumpedIs(byKey, key, now, keyLimit.window, byKeyFound);
  }

  /** Sweeping removes exactly the counters whose reset has come, and never changes what a later attempt
      finds. */
  lemma SweepUnseen(table: Table, key: string, swept: int, now: int, window: int)
    requires swept <= now
    ensures forall k :: k in Swept(table, swept) <==> k in table && swept < table[k].reset
    ensures Current(Swept(table, swept), key, now, window) == Current(table, key, now, window)
  {
  }
}
