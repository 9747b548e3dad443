/** The maintenance scheduler of internal/maintenance/coordinator.go. */
module Maintenance {
  import opened Wrappers

  // Configuration

  datatype Config = Config(lease: int, renew: int, retry: int, continuation: int, passTimeout: int, maxBatches: int)

  function OrDefault(value: int, default: int): int {
    if value <= 0 then default else value
  }

  const SECOND := 1_000_000_000

  /** New: defaults for what is not positive, then the checks. */
  function Normalized(c: Config, intervals: seq<int>): (r: Option<Config>)
    ensures r.Some? ==>
      && 0 < r.value.renew < r.value.lease && 0 < r.value.passTimeout < r.value.lease
      && r.value.retry > 0 && r.value.continuation > 0 && r.value.maxBatches > 0
      && forall i | 0 <= i < |intervals| :: intervals[i] > 0
  {
    var n := Config(OrDefault(c.lease, 30 * SECOND), OrDefault(c.renew, 10 * SECOND), OrDefault(c.retry, 5 * SECOND),
                    OrDefault(c.continuation, 5 * SECOND), OrDefault(c.passTimeout, 10 * SECOND),
                    OrDefault(c.maxBatches, 10));
    if n.renew >= n.lease || n.passTimeout >= n.lease || exists i | 0 <= i < |intervals| :: intervals[i] <= 0
    then None
    else Some(n)
  }

  /** What New makes of one duration or count. */
  ghost predicate Given(value: int, default: int, taken: int) {
    taken == if 0 < value then value else default
  }

  /** A configuration is accepted exactly when the lease, given or by default thirty seconds, is longer than its
      renewal interval and than a pass may take, each by default ten seconds, and every interval is
      positive; the other defaults are five seconds, five seconds and ten batches. */
  lemma NormalizedIs(c: Config, intervals: seq<int>)
    ensures var lease := if 0 < c.lease then c.lease else 30_000_000_000;
      && (Normalized(c, intervals).Some? <==>
            && (if 0 < c.renew then c.renew else 10_000_000_000) < lease
            && (if 0 < c.passTimeout then c.passTimeout else 10_000_000_000) < lease
            && forall i | 0 <= i < |intervals| :: 0 < intervals[i])
    ensures Normalized(c, intervals).Some? ==>
      var n := Normalized(c, intervals).value;
      && Given(c.lease, 30_000_000_000, n.lease) && Given(c.renew, 10_000_000_000, n.renew)
      && Given(c.retry, 5_000_000_000, n.retry) && Given(c.continuation, 5_000_000_000, n.continuation)
      && Given(c.passTimeout, 10_000_000_000, n.passTimeout) && Given(c.maxBatches, 10, n.maxBatches)
  {
  }

  // One pass

  datatype BatchError = DeadlineExceeded | OtherError

  /** What a batch returned, and whether the coordinator or the pass had been cancelled by then. */
  datatype Batch = Batch(rows: int, more: bool, owned: bool, error: Option<BatchError>, canceled: bool, expired: bool)

  datatype PassOutcome = Completed | Incomplete | Failed | Canceled

  function Rows(batches: seq<Batch>): int {
    if batches == [] then 0 else Rows(batches[..|batches| - 1]) + batches[|batches| - 1].rows
  }

  lemma {:induction false} RowsAdd(first: seq<Batch>, second: seq<Batch>)
    ensures Rows(first + second) == Rows(first) + Rows(second) && forall b: Batch :: Rows([b]) == b.rows
  {
    forall b: Batch ensures Rows([b]) == b.rows {
      assert [b][..0] == [];
    }
    if second == [] {
      assert first + second == first;
    } else {
      var n := |second| - 1;
      RowsAdd(first, second[..n]);
      assert (first + second)[..|first| + n] == first + second[..n];
    }
  }

  /** The pass goes on after the batch. */
  predicate GoesOn(b: Batch) {
    b.error.None? && b.owned && b.more && !b.expired
  }

  /** runJob: `batches` are the results of the calls it would make. A pass runs at least one and at
      most `maxBatches` batches, ends early only for a reason, and is completed exactly when its
      last batch committed under the lease and said that nothing remained. */
  method RunJob(maxBatches: nat, batches: seq<Batch>) returns (outcome: PassOutcome, total: int, used: nat)
    requires 0 < maxBatches <= |batches|
    ensures 1 <= used <= maxBatches && total == Rows(batches[..used])
    ensures forall i | 0 <= i < used - 1 :: GoesOn(batches[i])
    ensures used < maxBatches ==> !GoesOn(batches[used - 1])
    ensures var last := batches[used - 1];
      && (outcome == Completed <==> last.error.None? && last.owned && !last.more)
      && (outcome == Canceled <==> if last.error.Some? then last.canceled else !last.owned)
      && (outcome == Failed <==> last.error == Some(OtherError) && !last.canceled)
      && (outcome == Incomplete <==>
            if last.error.Some? then last.error == Some(DeadlineExceeded) && !last.canceled
            else last.owned && last.more && (last.expired || used == maxBatches))
  {
    total := 0;
    outcome := Completed;
    used := 0;
    for batchNumber := 0 to maxBatches
      invariant used == batchNumber && total == Rows(batches[..used]) && outcome == Completed
      invariant forall i | 0 <= i < used :: GoesOn(batches[i])
      invariant used < maxBatches
    {
      var b := batches[batchNumber];
      assert batches[..batchNumber + 1][..batchNumber] == batches[..batchNumber];
      used := used + 1;
      total := total + b.rows;
      if b.error.Some? {
        if b.canceled {
          outcome := Canceled;
        } else if b.error.value == DeadlineExceeded {
          outcome := Incomplete;
        } else {
          outcome := Failed;
        }
        break;
      }
      if !b.owned {
        outcome := Canceled;
        break;
      }
      if !b.more {
        break;
      }
      if b.expired {
        outcome := Incomplete;
        break;
      }
      if batchNumber == maxBatches - 1 {
        outcome := Incomplete;
        break;
      }
    }
  }

  // The scheduler

  /** The first index of the smallest time. */
  function Earliest(nexts: seq<int>): (p: nat)
    requires nexts != []
    ensures p < |nexts|
    ensures forall i | 0 <= i < |nexts| :: nexts[p] <= nexts[i]
    ensures forall i | 0 <= i < p :: nexts[p] < nexts[i]
  {
    if |nexts| == 1 then 0
    else
      var p := Earliest(nexts[..|nexts| - 1]);
      if nexts[|nexts| - 1] < nexts[p] then |nexts| - 1 else p
  }

  lemma EarliestOnly(nexts: seq<int>, p: nat)
    requires p < |nexts| && forall i | 0 <= i < |nexts| :: nexts[p] <= nexts[i]
    requires forall i | 0 <= i < p :: nexts[p] < nexts[i]
    ensures Earliest(nexts) == p
  {
    assert nexts[Earliest(nexts)] <= nexts[p];
  }

  /** Due times of the jobs, and the clock when the scheduler last looked at them. */
  datatype Schedule = Schedule(nexts: seq<int>, now: int)

  /** When a pass started and finished, and how it ended. */
  datatype Pass = Pass(start: int, finish: int, outcome: PassOutcome)

  function Delay(interval: int, continuation: int, outcome: PassOutcome): int {
    if outcome == Incomplete && continuation < interval then continuation else interval
  }

  /** The clock never runs back, and no pass starts before its job is due. */
  predicate Possible(s: Schedule, pass: Pass) {
    && s.nexts != [] && s.now <= pass.start <= pass.finish && s.nexts[Earliest(s.nexts)] <= pass.start
    && pass.outcome != Canceled
  }

  function Next(s: Schedule, intervals: seq<int>, continuation: int, pass: Pass): (t: Schedule)
    requires s.nexts != [] && |intervals| == |s.nexts|
    ensures |t.nexts| == |s.nexts|
  {
    var p := Earliest(s.nexts);
    Schedule(s.nexts[p := pass.finish + Delay(intervals[p], continuation, pass.outcome)], pass.finish)
  }

  /** After a pass, no job but a first one of the earliest is moved; that one is due again an interval
      after its pass, or sooner by the continuation interval exactly when batches remain. */
  lemma NextIs(s: Schedule, intervals: seq<int>, continuation: int, pass: Pass, job: nat)
    requires |intervals| == |s.nexts| && job < |s.nexts|
    requires continuation > 0 && forall i | 0 <= i < |intervals| :: intervals[i] > 0
    ensures var t := Next(s, intervals, continuation, pass);
      var picked := (forall i | 0 <= i < |s.nexts| :: s.nexts[job] <= s.nexts[i])
                    && (forall i | 0 <= i < job :: s.nexts[job] < s.nexts[i]);
      && t.now == pass.finish
      && t.nexts[job] ==
           (if !picked then s.nexts[job]
            else if pass.outcome.Incomplete? && continuation <= intervals[job] then pass.finish + continuation
            else pass.finish + intervals[job])
      && (picked ==> (t.nexts[job] < pass.finish + intervals[job] <==>
                        pass.outcome.Incomplete? && continuation < intervals[job]))
  {
    if (forall i | 0 <= i < |s.nexts| :: s.nexts[job] <= s.nexts[i])
       && (forall i | 0 <= i < job :: s.nexts[job] < s.nexts[i])
    {
      EarliestOnly(s.nexts, job);
    }
  }

  predicate PossibleRun(s: Schedule, intervals: seq<int>, continuation: int, passes: seq<Pass>)
    requires |intervals| == |s.nexts|
    decreases |passes|
  {
    passes == [] ||
    (Possible(s, passes[0]) &&
     PossibleRun(Next(s, intervals, continuation, passes[0]), intervals, continuation, passes[1..]))
  }

  /** However long the passes take and however they end short of cancellation, the scheduler can go on: each
      job in turn may wait until it is due and run. */
  lemma {:induction false} RunsExist(s: Schedule, intervals: seq<int>, continuation: int, lengths: seq<nat>,
                                     outcomes: seq<PassOutcome>) returns (passes: seq<Pass>)
    requires |intervals| == |s.nexts| > 0 && |lengths| == |outcomes| && Canceled !in outcomes
    ensures |passes| == |outcomes| && PossibleRun(s, intervals, continuation, passes)
    ensures forall i | 0 <= i < |passes| ::
      passes[i].outcome == outcomes[i] && passes[i].finish == passes[i].start + lengths[i]
    decreases |outcomes|
  {
    passes := [];
    if outcomes != [] {
      var due := s.nexts[Earliest(s.nexts)];
      var start := if due < s.now then s.now else due;
      var first := Pass(start, start + lengths[0], outcomes[0]);
      var next := Next(s, intervals, continuation, first);
      var rest := RunsExist(next, intervals, continuation, lengths[1..], outcomes[1..]);
      passes := [first] + rest;
      assert passes[1..] == rest;
    }
  }

  /** The jobs picked by a run of passes. */
  function Picked(s: Schedule, intervals: seq<int>, continuation: int, passes: seq<Pass>): (picks: seq<nat>)
    requires |intervals| == |s.nexts| && PossibleRun(s, intervals, continuation, passes)
    ensures |picks| == |passes| && forall i | 0 <= i < |picks| :: picks[i] < |s.nexts|
    decreases |passes|
  {
    if passes == [] then []
    else [Earliest(s.nexts)] + Picked(Next(s, intervals, continuation, passes[0]), intervals, continuation, passes[1..])
  }

  function Final(s: Schedule, intervals: seq<int>, continuation: int, passes: seq<Pass>): Schedule
    requires |intervals| == |s.nexts| && PossibleRun(s, intervals, continuation, passes)
    decreases |passes|
  {
    if passes == [] then s
    else Final(Next(s, intervals, continuation, passes[0]), intervals, continuation, passes[1..])
  }

  lemma RunNext(s: Schedule, intervals: seq<int>, continuation: int, passes: seq<Pass>)
    requires |intervals| == |s.nexts| && PossibleRun(s, intervals, continuation, passes) && passes != []
    ensures s.nexts != [] &&
        PossibleRun(Next(s, intervals, continuation, passes[0]), intervals, continuation, passes[1..])
    ensures var t := Next(s, intervals, continuation, passes[0]);
      && Picked(s, intervals, continuation, passes) ==
          [Earliest(s.nexts)] + Picked(t, intervals, continuation, passes[1..])
      && Final(s, intervals, continuation, passes) == Final(t, intervals, continuation, passes[1..])
  {
  }

  lemma RunEnd(s: Schedule, intervals: seq<int>, continuation: int)
    requires |intervals| == |s.nexts|
    ensures PossibleRun(s, intervals, continuation, []) && Picked(s, intervals, continuation, []) == []
    ensures Final(s, intervals, continuation, []) == s
  {
  }

  /** The index loop of runScheduler. */
  method FindEarliest(nexts: array<int>) returns (next: nat)
    requires nexts.Length > 0
    ensures next == Earliest(nexts[..])
  {
    next := 0;
    for i := 1 to nexts.Length
      invariant next < i
      invariant forall j | 0 <= j < i :: nexts[next] <= nexts[j]
      invariant forall j | 0 <= j < next :: nexts[next] < nexts[j]
    {
      if nexts[i] < nexts[next] {
        next := i;
      }
    }
    EarliestOnly(nexts[..], next);
  }

  /** Every job is due at once when the scheduler starts. */
  function AllAt(n: nat, now: int): seq<int> {
    seq(n, i => now)
  }

  method StartAll(nexts: array<int>, now: int)
    modifies nexts
    ensures nexts[..] == AllAt(nexts.Length, now)
  {
    for i := 0 to nexts.Length
      invariant forall j | 0 <= j < i :: nexts[j] == now
    {
      nexts[i] := now;
    }
  }

  /** One round of runScheduler: the earliest job runs and gets its next time. */
  method RunNextJob(nexts: array<int>, intervals: seq<int>, continuation: int, pass: Pass, ghost s: Schedule)
    returns (next: nat)
    requires nexts.Length == |intervals| > 0 && nexts[..] == s.nexts
    modifies nexts
    ensures next == Earliest(s.nexts) && nexts[..] == Next(s, intervals, continuation, pass).nexts
  {
    next := FindEarliest(nexts);
    var delay := intervals[next];
    if pass.outcome == Incomplete && continuation < delay {
      delay := continuation;
    }
    nexts[next] := pass.finish + delay;
  }

  /** runScheduler, for as many passes as happen before it is cancelled. */
  method RunScheduler(nexts: array<int>, now: int, intervals: seq<int>, continuation: int, passes: seq<Pass>)
    returns (picks: seq<nat>)
    requires nexts.Length == |intervals| > 0
    requires PossibleRun(Schedule(AllAt(nexts.Length, now), now), intervals, continuation, passes)
    modifies nexts
    ensures var s := Schedule(AllAt(nexts.Length, now), now);
      && picks == Picked(s, intervals, continuation, passes)
      && nexts[..] == Final(s, intervals, continuation, passes).nexts
  {
    hide Picked, Final, PossibleRun, Earliest, Next, AllAt, Delay;
    StartAll(nexts, now);
    ghost var s := Schedule(AllAt(nexts.Length, now), now);
    ghost var initial, rest := s, passes;
    picks := [];
    assert passes[0..] == passes;
    for n := 0 to |passes|
      invariant nexts[..] == s.nexts && rest == passes[n..] && PossibleRun(s, intervals, continuation, rest)
      invariant Picked(initial, intervals, continuation, passes) == picks + Picked(s, intervals, continuation, rest)
      invariant Final(initial, intervals, continuation, passes) == Final(s, intervals, continuation, rest)
    {
      assert rest[0] == passes[n] && rest[1..] == passes[n + 1..];
      RunNext(s, intervals, continuation, rest);
      var next := RunNextJob(nexts, intervals, continuation, passes[n], s);
      ghost var t := Next(s, intervals, continuation, passes[n]);
      assert picks + ([next] + Picked(t, intervals, continuation, rest[1..])) ==
        (picks + [next]) + Picked(t, intervals, continuation, rest[1..]);
      picks := picks + [next];
      s := t;
      rest := rest[1..];
    }
    RunEnd(s, intervals, continuation);
  }

  // Fairness

  ghost function Items(s: seq<nat>): set<nat> {
    set i | 0 <= i < |s| :: s[i]
  }

  predicate Distinct(s: seq<nat>) {
    forall i, j | 0 <= i < j < |s| :: s[i] != s[j]
  }

  /** While a job that is due when the next pass starts waits, the jobs that have run meanwhile are later
      than it and stay so. */
  lemma {:induction false} PicksBefore(s: Schedule, intervals: seq<int>, continuation: int, passes: seq<Pass>, job: nat,
                                       done: set<nat>)
    requires |intervals| == |s.nexts| && PossibleRun(s, intervals, continuation, passes)
    requires continuation > 0 && forall i | 0 <= i < |intervals| :: intervals[i] > 0
    requires job < |s.nexts| && (passes != [] ==> s.nexts[job] <= passes[0].start)
    requires forall d <- done :: d < |s.nexts| && s.nexts[d] > s.nexts[job]
    requires job !in Picked(s, intervals, continuation, passes)
    ensures Distinct(Picked(s, intervals, continuation, passes))
    ensures Items(Picked(s, intervals, continuation, passes)) !! done
    decreases |passes|
  {
    if passes != [] {
      var p := Earliest(s.nexts);
      var next := Next(s, intervals, continuation, passes[0]);
      var picks := Picked(s, intervals, continuation, passes);
      var rest := Picked(next, intervals, continuation, passes[1..]);
      assert picks == [p] + rest && picks[0] == p;
      assert p != job && p !in done;
      PicksBefore(next, intervals, continuation, passes[1..], job, done + {p});
      forall i | 0 <= i < |rest| ensures rest[i] != p && rest[i] !in done {
        assert rest[i] in Items(rest);
      }
    }
  }

  lemma {:induction false} DistinctBound(s: seq<nat>, n: nat)
    requires Distinct(s) && forall i | 0 <= i < |s| :: s[i] < n
    ensures |s| <= n
    decreases n
  {
    if n == 0 {
      assert s == [] by {
        if s != [] {
          assert false;
        }
      }
    } else if n - 1 in s {
      var at :| 0 <= at < |s| && s[at] == n - 1;
      var less := s[..at] + s[at + 1..];
      forall i | 0 <= i < |less| ensures less[i] < n - 1 {
        assert less[i] == s[if i < at then i else i + 1];
      }
      forall i, j | 0 <= i < j < |less| ensures less[i] != less[j] {
        assert less[i] == s[if i < at then i else i + 1] && less[j] == s[if j < at then j else j + 1];
      }
      DistinctBound(less, n - 1);
    } else {
      DistinctBound(s, n - 1);
    }
  }

  /** From the first pass that starts when a job is due, be it while the scheduler was waiting that it
      came due, every other job runs at most once before it does: in any run of as many passes as there
      are jobs, it is picked. */
  lemma DueJobsRun(s: Schedule, intervals: seq<int>, continuation: int, passes: seq<Pass>, job: nat)
    requires |intervals| == |s.nexts| && PossibleRun(s, intervals, continuation, passes)
    requires continuation > 0 && forall i | 0 <= i < |intervals| :: intervals[i] > 0
    requires job < |s.nexts| && (passes != [] ==> s.nexts[job] <= passes[0].start)
    ensures job !in Picked(s, intervals, continuation, passes) ==>
      Distinct(Picked(s, intervals, continuation, passes)) && |passes| <= |intervals| - 1
  {
    var picks := Picked(s, intervals, continuation, passes);
    if job !in picks {
      PicksBefore(s, intervals, continuation, passes, job, {});
      DistinctBound(picks + [job], |intervals|);
    }
  }
}
