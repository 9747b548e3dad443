/** Retries of the email queue: internal/challenge/worker.go. Durations are nanoseconds. */
module EmailRetry {
  import opened Powers

  function Min(a: int, b: int): int { if a <= b then a else b }

  /** The nominal delay of an attempt: doubling from the base up to the cap. */
  function Nominal(attempt: int, base: int, cap: int): int {
    Min(base * Pow2(if attempt < 1 then 0 else attempt - 1), cap)
  }

  lemma Scaled(base: int, small: nat, large: nat)
    requires base > 0 && small <= large
    ensures base * small <= base * large
  {
  }

  /** The loop of emailRetryDelay. No value it computes exceeds the larger of the base and the cap, so
      none overflows where these fit. */
  method NominalDelay(attempt: int, base: int, cap: int) returns (nominal: int, ghost largest: int)
    requires base > 0 && cap > 0
    ensures nominal == Nominal(attempt, base, cap)
    ensures largest <= if base > cap then base else cap
  {
    var n := if attempt < 1 then 1 else attempt;
    nominal := base;
    largest := base;
    var current := 1;
    while current < n && nominal < cap
      invariant 1 <= current <= n && 0 < nominal <= largest <= (if base > cap then base else cap)
      invariant nominal == base * Pow2(current - 1) || (nominal == cap <= base * Pow2(n - 1))
      decreases n - current
    {
      Pow2Grows(current, n - 1);
      Scaled(base, Pow2(current), Pow2(n - 1));
      if nominal > cap / 2 {
        assert base * Pow2(current) == 2 * (base * Pow2(current - 1));
        nominal := cap;
        largest := if cap > largest then cap else largest;
        break;
      }
      assert base * Pow2(current) == 2 * (base * Pow2(current - 1));
      nominal := nominal * 2;
      largest := if nominal > largest then nominal else largest;
      current := current + 1;
    }
    if nominal >= cap && nominal == base * Pow2(current - 1) {
      Pow2Grows(current - 1, n - 1);
      Scaled(base, Pow2(current - 1), Pow2(n - 1));
    }
    if nominal > cap {
      nominal := cap;
    }
  }

  function Clamped(random: real): real {
    if random < 0.0 then 0.0 else if random >= 1.0 then 0.999999999 else random
  }

  /** emailRetryDelay: half of the nominal delay and a random share of the rest. */
  function Delay(attempt: int, base: int, cap: int, random: real): (delay: int)
    requires base > 0 && cap > 0
  {
    var nominal := Nominal(attempt, base, cap);
    var half := nominal / 2;
    half + Share(Clamped(random), nominal - half)
  }

  /** The integer part of a share of a duration. */
  function Share(share: real, whole: int): int {
    (share * (whole as real)).Floor
  }

  lemma NominalPositive(attempt: int, base: int, cap: int)
    requires base > 0 && cap > 0
    ensures 0 < Nominal(attempt, base, cap) <= cap
  {
    var n: nat := if attempt < 1 then 0 else attempt - 1;
    Pow2Grows(0, n);
    Scaled(base, 1, Pow2(n));
  }

  /** The nominal delay never shrinks with the attempt. */
  lemma NominalMonotone(attempt: int, later: int, base: int, cap: int)
    requires base > 0 && cap > 0 && attempt <= later
    ensures Nominal(attempt, base, cap) <= Nominal(later, base, cap)
  {
    var m: nat := if attempt < 1 then 0 else attempt - 1;
    var n: nat := if later < 1 then 0 else later - 1;
    Pow2Grows(m, n);
    Scaled(base, Pow2(m), Pow2(n));
  }

  /** The delay lies between half of the nominal delay and all of it. */
  lemma DelayBounds(attempt: int, base: int, cap: int, random: real)
    requires base > 0 && cap > 0
    ensures var nominal := Nominal(attempt, base, cap);
      nominal / 2 <= Delay(attempt, base, cap, random) <= nominal
    ensures Delay(attempt, base, cap, random) < Nominal(attempt, base, cap)
  {
    hide Nominal, Share;
    NominalPositive(attempt, base, cap);
    var nominal := Nominal(attempt, base, cap);
    ShareBounds(Clamped(random), nominal - nominal / 2);
  }

  /** The share follows the random number from nothing up to all but a billionth of the rest. */
  lemma DelayIs(attempt: int, base: int, cap: int, random: real)
    requires base > 0 && cap > 0
    ensures var nominal := Nominal(attempt, base, cap);
      var rest := (nominal - nominal / 2) as real;
      && (random <= 0.0 ==> Delay(attempt, base, cap, random) == nominal / 2)
      && (0.0 <= random < 1.0 ==> Delay(attempt, base, cap, random) == nominal / 2 + (random * rest).Floor)
      && (1.0 <= random ==> Delay(attempt, base, cap, random) == nominal / 2 + (0.999999999 * rest).Floor)
  {
    hide Nominal;
    var rest := (Nominal(attempt, base, cap) - Nominal(attempt, base, cap) / 2) as real;
    assert 0.0 * rest == 0.0;
  }

  lemma Positive(a: real, b: real)
    requires a >= 0.0 && b >= 0.0
    ensures a * b >= 0.0 && (a > 0.0 && b > 0.0 ==> a * b > 0.0)
  {
  }

  lemma ShareBounds(share: real, whole: int)
    requires 0.0 <= share < 1.0 && whole > 0
    ensures 0 <= Share(share, whole) < whole
  {
    var w: real := whole as real;
    Positive(share, w);
    Positive(1.0 - share, w);
    assert (1.0 - share) * w == w - share * w;
    FloorBetween(share * w, whole);
  }

  lemma FloorBetween(x: real, n: int)
    requires 0.0 <= x < n as real
    ensures 0 <= x.Floor < n
  {
  }

  datatype Reason = DeadlineExceeded | Permanent | AttemptsExhausted
  datatype Delivery = Delivered | PermanentFailure | TemporaryFailure
  datatype Transition = Sent | FailedFor(reason: Reason) | Requeued(at: int)

  /** A claimed job: its attempts include this one. */
  datatype Job = Job(attempts: int, deadline: int)

  /** runOnce after a claim. A job past its deadline is not sent; a requeued one has attempts left
      and is not due before now, nor past its deadline. */
  method RunClaimed(job: Job, now: int, delivery: Delivery, maxAttempts: int, base: int, cap: int, random: real)
    returns (t: Transition)
    requires base > 0 && cap > 0
    ensures t == FailedFor(DeadlineExceeded) <==> job.deadline <= now
    ensures t == Sent <==> now < job.deadline && delivery == Delivered
    ensures t == FailedFor(Permanent) <==> now < job.deadline && delivery == PermanentFailure
    ensures t == FailedFor(AttemptsExhausted) <==>
        now < job.deadline && delivery == TemporaryFailure && job.attempts >= maxAttempts
    ensures t.Requeued? <==> now < job.deadline && delivery == TemporaryFailure && job.attempts < maxAttempts
    ensures t.Requeued? ==>
      && now <= t.at <= job.deadline
      && (Nominal(job.attempts, base, cap) > 1 ==> now < t.at)
      && t.at == (if now + Delay(job.attempts, base, cap, random) <= job.deadline
                  then now + Delay(job.attempts, base, cap, random) else job.deadline)
  {
    if job.deadline <= now {
      return FailedFor(DeadlineExceeded);
    }
    match delivery
    case Delivered => return Sent;
    case PermanentFailure => return FailedFor(Permanent);
    case TemporaryFailure =>
      if job.attempts >= maxAttempts {
        return FailedFor(AttemptsExhausted);
      }
      var nominal, _ := NominalDelay(job.attempts, base, cap);
      var half := nominal / 2;
      var delay := half + Share(Clamped(random), nominal - half);
      DelayBounds(job.attempts, base, cap, random);
      var next := now + delay;
      if next > job.deadline {
        next := job.deadline;
      }
      return Requeued(next);
  }
}
