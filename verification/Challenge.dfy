/** Verification challenges: internal/challenge/service.go over the challenge rows of the store.

    A transaction runs with the challenge's row locked, so it is one step here. Pending actions and
    their users are reduced to whether the hooks succeed and to the record of follow-up actions that
    took effect. */
module Challenge {
  import opened Wrappers

  datatype Purpose = Signup | PasswordReset | EmailChange | EmailVerification | OtherPurpose

  datatype Challenge = Challenge(
    purpose: Purpose,
    expiresAt: int,
    consumedAt: Option<int>,
    attempts: int,
    maxAttempts: int,
    resends: int,
    maxResends: int,
    interval: Option<int>,
    lastSentAt: Option<int>)

  /** A code with its own deadline; comparing hashes is comparing codes. */
  datatype Code = Code(code: string, expiresAt: int)

  /** Rows, the follow-up actions that took effect, and the mails queued. */
  datatype Db = Db(challenges: map<nat, Challenge>, codes: map<nat, Code>, actions: seq<nat>, mails: seq<(nat, int)>)

  datatype Policy = Policy(ttl: int, maxAttempts: int, maxResends: int, interval: int)

  datatype Error =
    | NotFound | Consumed | Expired | TooManyAttempts | TooManyResends | ResendTooSoon | UnsupportedPurpose
    | CodeNotFound | InvalidCode | HookFailed

  datatype Outcome = Outcome(db: Db, result: Option<Error>)

  /** The pending action a resend finds: still there, gone, or unreadable. */
  datatype Pending = Present | Gone | Unreadable

  // Validators

  function VerifyError(c: Challenge, now: int): Option<Error> {
    if c.consumedAt.Some? then Some(Consumed)
    else if now > c.expiresAt then Some(Expired)
    else if c.attempts >= c.maxAttempts then Some(TooManyAttempts)
    else None
  }

  function ResendError(c: Challenge, now: int, legacyInterval: int): Option<Error> {
    if c.consumedAt.Some? then Some(Consumed)
    else if now > c.expiresAt then Some(Expired)
    else if c.resends >= c.maxResends then Some(TooManyResends)
    else if c.lastSentAt.Some? &&
        now < c.lastSentAt.value + (if c.interval.Some? then c.interval.value else legacyInterval)
    then Some(ResendTooSoon)
    else None
  }

  /** VerifyCode of the code service. */
  function CodeError(db: Db, id: nat, code: string, now: int): Option<Error> {
    if id !in db.codes then Some(CodeNotFound)
    else if db.codes[id].expiresAt < now then Some(Expired)
    else if db.codes[id].code != code then Some(InvalidCode)
    else None
  }

  predicate HasTemplate(p: Purpose) {
    p != OtherPurpose
  }

  // Transactions

  function Counted(db: Db, id: nat): Db
    requires id in db.challenges
  {
    db.(challenges := db.challenges[id := db.challenges[id].(attempts := db.challenges[id].attempts + 1)])
  }

  function ConsumedAt(db: Db, id: nat, now: int): Db
    requires id in db.challenges
  {
    db.(challenges := db.challenges[id := db.challenges[id].(consumedAt := Some(now))], actions := db.actions + [id])
  }

  function Verified(db: Db, id: nat, purpose: Purpose, code: string, now: int, beforeOk: bool, afterOk: bool): Outcome {
    if id !in db.challenges then Outcome(db, Some(NotFound))
    else
      var c := db.challenges[id];
      if VerifyError(c, now).Some? then Outcome(db, VerifyError(c, now))
      else if c.purpose != purpose then Outcome(db, Some(UnsupportedPurpose))
      else if !beforeOk then Outcome(db, Some(HookFailed))
      else
        var wrong := CodeError(db, id, code, now);
        if wrong == Some(InvalidCode) then Outcome(Counted(db, id), wrong)
        else if wrong.Some? then Outcome(db, wrong)
        else if !afterOk then Outcome(db, Some(HookFailed))
        else Outcome(ConsumedAt(db, id, now), None)
  }

  function Resent(db: Db, id: nat, now: int, legacyInterval: int, pending: Pending): Outcome {
    if id !in db.challenges then Outcome(db, Some(NotFound))
    else
      var c := db.challenges[id];
      if ResendError(c, now, legacyInterval).Some? then Outcome(db, ResendError(c, now, legacyInterval))
      else if pending == Gone then Outcome(db, Some(Consumed))
      else if pending == Unreadable then Outcome(db, Some(HookFailed))
      else if !HasTemplate(c.purpose) then Outcome(db, Some(UnsupportedPurpose))
      else
        Outcome(Db(db.challenges[id := c.(resends := c.resends + 1, lastSentAt := Some(now))], db.codes, db.actions,
                   db.mails + [(id, c.expiresAt)]), None)
  }

  function Created(db: Db, id: nat, purpose: Purpose, now: int, policy: Policy, pendingOk: bool): Outcome {
    if id in db.challenges || !pendingOk then Outcome(db, Some(HookFailed))
    else if !HasTemplate(purpose) then Outcome(db, Some(UnsupportedPurpose))
    else
      Outcome(Db(db.challenges[id := Challenge(purpose, now + policy.ttl, None, 0, policy.maxAttempts, 0,
                                               policy.maxResends,
                                               Some(policy.interval), None)],
                 db.codes, db.actions, db.mails + [(id, now + policy.ttl)]), None)
  }

  // When a verification, a resend or a creation succeeds, and what it changes

  /** The challenge is there for this purpose, unused, to its last instant, with an attempt left. */
  predicate Verifiable(db: Db, id: nat, purpose: Purpose, now: int) {
    && id in db.challenges
    && var c := db.challenges[id];
    && c.consumedAt.None? && now <= c.expiresAt && c.attempts < c.maxAttempts && c.purpose == purpose
  }

  /** A code is stored for it that can still be used, to its own last instant. */
  predicate CodeStored(db: Db, id: nat, now: int) {
    id in db.codes && now <= db.codes[id].expiresAt
  }

  /** No row but this one differs, and in it nothing but the field. */
  ghost predicate ConsumedOnly(before: Db, after: Db, id: nat, now: int) {
    && id in before.challenges
    && after == Db(before.challenges[id := before.challenges[id].(consumedAt := Some(now))], before.codes,
                   before.actions + [id], before.mails)
  }

  ghost predicate AttemptCounted(before: Db, after: Db, id: nat) {
    && id in before.challenges
    && after == Db(before.challenges[id := before.challenges[id].(attempts := before.challenges[id].attempts + 1)],
                   before.codes, before.actions, before.mails)
  }

  /** The right code, and no other, lets the action take effect; a wrong one is counted; anything else
      changes nothing. */
  lemma VerifiedIs(db: Db, id: nat, purpose: Purpose, code: string, now: int, beforeOk: bool, afterOk: bool)
    ensures var outcome := Verified(db, id, purpose, code, now, beforeOk, afterOk);
      var ready := Verifiable(db, id, purpose, now) && beforeOk && CodeStored(db, id, now);
      && (outcome.result.None? <==> ready && code == db.codes[id].code && afterOk)
      && (outcome.result == Some(InvalidCode) <==> ready && code != db.codes[id].code)
      && (if outcome.result.None? then ConsumedOnly(db, outcome.db, id, now)
          else if outcome.result == Some(InvalidCode) then AttemptCounted(db, outcome.db, id)
          else outcome.db == db)
  {
  }

  predicate MayResend(db: Db, id: nat, now: int, legacyInterval: int, pending: Pending) {
    && id in db.challenges && pending == Present
    && var c := db.challenges[id];
    && c.consumedAt.None? && now <= c.expiresAt && c.resends < c.maxResends && c.purpose != OtherPurpose
    && (c.lastSentAt.None? ||
        c.lastSentAt.value + (if c.interval.Some? then c.interval.value else legacyInterval) <= now)
  }

  /** One resend more on this row, one mail with the row's own deadline, and nothing else. */
  ghost predicate ResendCounted(before: Db, after: Db, id: nat, now: int)
    requires id in before.challenges
  {
    var c := before.challenges[id];
    && after.challenges.Keys == before.challenges.Keys
    && (forall other <- before.challenges | other != id :: after.challenges[other] == before.challenges[other])
    && after.challenges[id] == c.(resends := after.challenges[id].resends, lastSentAt := Some(now))
    && c.resends < after.challenges[id].resends <= c.maxResends && after.challenges[id].resends == c.resends + 1
    && after.codes == before.codes && after.actions == before.actions
    && |after.mails| == |before.mails| + 1 && before.mails <= after.mails
    && after.mails[|before.mails|] == (id, c.expiresAt)
  }

  lemma ResentIs(db: Db, id: nat, now: int, legacyInterval: int, pending: Pending)
    ensures var outcome := Resent(db, id, now, legacyInterval, pending);
      && (outcome.result.None? <==> MayResend(db, id, now, legacyInterval, pending))
      && (outcome.result.None? ==> ResendCounted(db, outcome.db, id, now))
      && (outcome.result.Some? ==> outcome.db == db)
  {
  }

  /** Two resends of a challenge are never closer than its interval, and the last one allowed is
      never followed by another. */
  lemma ResendsSpaced(db: Db, id: nat, now: int, later: int, legacyInterval: int, pending: Pending, again: Pending)
    requires Resent(db, id, now, legacyInterval, pending).result.None?
    ensures var sent := Resent(db, id, now, legacyInterval, pending).db;
      var c := db.challenges[id];
      var interval := if c.interval.Some? then c.interval.value else legacyInterval;
      Resent(sent, id, later, legacyInterval, again).result.None? ==>
        now + interval <= later <= c.expiresAt && c.resends + 2 <= c.maxResends
  {
  }

  /** A row with the policy's deadline, limits and interval, a mail with that deadline, and nothing else. */
  ghost predicate Opened(before: Db, after: Db, id: nat, purpose: Purpose, now: int, policy: Policy) {
    && id !in before.challenges && after.challenges.Keys == before.challenges.Keys + {id}
    && (forall other <- before.challenges :: after.challenges[other] == before.challenges[other])
    && after.challenges[id] ==
         Challenge(purpose, now + policy.ttl, None, 0, policy.maxAttempts, 0, policy.maxResends, Some(policy.interval),
                   None)
    && after.codes == before.codes && after.actions == before.actions
    && |after.mails| == |before.mails| + 1 && before.mails <= after.mails
    && after.mails[|before.mails|] == (id, now + policy.ttl)
  }

  lemma CreatedIs(db: Db, id: nat, purpose: Purpose, now: int, policy: Policy, pendingOk: bool)
    ensures var outcome := Created(db, id, purpose, now, policy, pendingOk);
      && (outcome.result.None? <==> id !in db.challenges && pendingOk && purpose != OtherPurpose)
      && (outcome.result.None? ==> Opened(db, outcome.db, id, purpose, now, policy))
      && (outcome.result.Some? ==> outcome.db == db)
  {
  }

  ghost predicate RowOk(c: Challenge) {
    0 <= c.attempts <= c.maxAttempts && 0 <= c.resends <= c.maxResends && 0 < c.maxAttempts
  }

  ghost predicate RowsOk(db: Db) {
    forall id <- db.challenges :: RowOk(db.challenges[id])
  }

  /** Some errors end a transaction that commits, others undo it: `tx` is what would be committed. */
  class ChallengeService {
    var db: Db

    constructor (initial: Db)
      ensures db == initial
    {
      db := initial;
    }

    /** `beforeOk` and `afterOk` say whether the hooks succeed; the second records the action. */
    method VerifyChallenge(id: nat, purpose: Purpose, code: string, now: int, beforeOk: bool, afterOk: bool)
      returns (error: Option<Error>)
      modifies this
      ensures Outcome(db, error) == Verified(old(db), id, purpose, code, now, beforeOk, afterOk)
      ensures error.None? <==>
        && Verifiable(old(db), id, purpose, now) && beforeOk && afterOk
        && CodeStored(old(db), id, now) && code == old(db).codes[id].code
      ensures error == Some(InvalidCode) <==>
        && Verifiable(old(db), id, purpose, now) && beforeOk
        && CodeStored(old(db), id, now) && code != old(db).codes[id].code
      ensures if error.None? then ConsumedOnly(old(db), db, id, now)
              else if error == Some(InvalidCode) then AttemptCounted(old(db), db, id)
              else db == old(db)
    {
      VerifiedIs(db, id, purpose, code, now, beforeOk, afterOk);
      if id !in db.challenges {
        return Some(NotFound);
      }
      var tx := db;
      var challenge := tx.challenges[id];
      error := VerifyError(challenge, now);
      if error.Some? {
        return;
      }
      if challenge.purpose != purpose {
        return Some(UnsupportedPurpose);
      }
      if !beforeOk {
        return Some(HookFailed);
      }
      error := CodeError(tx, id, code, now);
      if error.Some? {
        if error.value == InvalidCode {
          tx := Counted(tx, id);
        }
        db := tx;
        return;
      }
      if !afterOk {
        return Some(HookFailed);
      }
      tx := tx.(actions := tx.actions + [id]);
      var consumed := Consume(tx, id, now);
      if consumed.None? {
        // The source answers that the challenge was consumed meanwhile; under the row lock it was not.
        assert false;
      }
      db := consumed.value;
      return None;
    }

    method ResendChallenge(id: nat, now: int, legacyInterval: int, pending: Pending) returns (error: Option<Error>)
      modifies this
      ensures Outcome(db, error) == Resent(old(db), id, now, legacyInterval, pending)
      ensures error.None? <==> MayResend(old(db), id, now, legacyInterval, pending)
      ensures if error.None? then ResendCounted(old(db), db, id, now) else db == old(db)
      ensures RowsOk(old(db)) ==> RowsOk(db)
    {
      ResentIs(db, id, now, legacyInterval, pending);
      if id !in db.challenges {
        return Some(NotFound);
      }
      var tx := db;
      var challenge := tx.challenges[id];
      error := ResendError(challenge, now, legacyInterval);
      if error.Some? {
        return;
      }
      match pending {
        case Gone => return Some(Consumed);
        case Unreadable => return Some(HookFailed);
        case Present =>
      }
      var resent := challenge.(resends := challenge.resends + 1, lastSentAt := Some(now));
      tx := tx.(challenges := tx.challenges[id := resent]);
      if !HasTemplate(challenge.purpose) {
        return Some(UnsupportedPurpose);
      }
      db := tx.(mails := tx.mails + [(id, challenge.expiresAt)]);
      return None;
    }

    method CreateChallenge(id: nat, purpose: Purpose, now: int, policy: Policy, pendingOk: bool)
      returns (error: Option<Error>)
      modifies this
      ensures Outcome(db, error) == Created(old(db), id, purpose, now, policy, pendingOk)
      ensures error.None? <==> id !in old(db).challenges && pendingOk && purpose != OtherPurpose
      ensures if error.None? then Opened(old(db), db, id, purpose, now, policy) else db == old(db)
      ensures RowsOk(old(db)) && policy.maxAttempts > 0 && policy.maxResends >= 0 ==> RowsOk(db)
    {
      CreatedIs(db, id, purpose, now, policy, pendingOk);
      if id in db.challenges || !pendingOk {
        return Some(HookFailed);
      }
      if !HasTemplate(purpose) {
        return Some(UnsupportedPurpose);
      }
      var expiresAt := now + policy.ttl;
      var row := Challenge(purpose, expiresAt, None, 0, policy.maxAttempts, 0, policy.maxResends, Some(policy.interval),
                           None);
      db := Db(db.challenges[id := row], db.codes, db.actions, db.mails + [(id, expiresAt)]);
      return None;
    }
  }

  /** ConsumeChallenge: the row is updated only where it is not consumed. */
  function Consume(db: Db, id: nat, now: int): Option<Db> {
    if id in db.challenges && db.challenges[id].consumedAt.None?
    then Some(db.(challenges := db.challenges[id := db.challenges[id].(consumedAt := Some(now))]))
    else None
  }

  // Runs

  /** Challenge ids are never used twice. */
  datatype Sys = Sys(db: Db, used: set<nat>)

  datatype Action =
    | Create(id: nat, purpose: Purpose, now: int, policy: Policy, pendingOk: bool)
    | SetCode(id: nat, row: Code)
    | Verify(id: nat, purpose: Purpose, code: string, now: int, beforeOk: bool, afterOk: bool)
    | Resend(id: nat, now: int, legacyInterval: int, pending: Pending)
    | MailSent(id: nat, now: int)
    | DeleteExpired(now: int)

  function Effect(s: Sys, action: Action): Db {
    match action
    case Create(id, purpose, now, policy, pendingOk) =>
      if id in s.used || policy.maxAttempts <= 0 || policy.maxResends < 0 then s.db
      else Created(s.db, id, purpose, now, policy, pendingOk).db
    case SetCode(id, row) => if id in s.db.challenges then s.db.(codes := s.db.codes[id := row]) else s.db
    case Verify(id, purpose, code, now, beforeOk, afterOk) =>
      Verified(s.db, id, purpose, code, now, beforeOk, afterOk).db
    case Resend(id, now, legacyInterval, pending) => Resent(s.db, id, now, legacyInterval, pending).db
    case MailSent(id, now) =>
      if id in s.db.challenges
      then s.db.(challenges := s.db.challenges[id := s.db.challenges[id].(lastSentAt := Some(now))])
      else s.db
    case DeleteExpired(now) =>
      s.db.(challenges := map id | id in s.db.challenges && s.db.challenges[id].expiresAt >= now :: s.db.challenges[id])
  }

  function Apply(s: Sys, action: Action): Sys {
    Sys(Effect(s, action), s.used + Effect(s, action).challenges.Keys)
  }

  function Run(s: Sys, actions: seq<Action>): Sys
    decreases |actions|
  {
    if actions == [] then s else Run(Apply(s, actions[0]), actions[1..])
  }

  ghost predicate Inv(s: Sys) {
    && s.db.challenges.Keys <= s.used
    && RowsOk(s.db)
    && (forall k | 0 <= k < |s.db.actions| :: s.db.actions[k] in s.used)
    && (forall id <- s.db.challenges :: s.db.challenges[id].consumedAt.Some? <==> id in s.db.actions)
    && (forall j, k | 0 <= j < k < |s.db.actions| :: s.db.actions[j] != s.db.actions[k])
  }

  lemma StepKept(s: Sys, action: Action)
    requires Inv(s)
    ensures Inv(Apply(s, action))
  {
  }

  lemma {:induction false} RunKept(s: Sys, actions: seq<Action>)
    requires Inv(s)
    ensures Inv(Run(s, actions))
    decreases |actions|
  {
    if actions != [] {
      hide Inv, Apply;
      StepKept(s, actions[0]);
      RunKept(Apply(s, actions[0]), actions[1..]);
    }
  }

  function Empty(): Sys {
    Sys(Db(map[], map[], [], []), {})
  }

  /** Over every run: wrong codes counted and resends never pass their limits, no follow-up action
      takes effect twice, and a challenge is consumed exactly if its action took effect. */
  lemma ChallengesHold(actions: seq<Action>, id: nat)
    ensures var db := Run(Empty(), actions).db;
      && (forall j, k | 0 <= j < k < |db.actions| :: db.actions[j] != db.actions[k])
      && (id in db.challenges ==>
            && db.challenges[id].attempts <= db.challenges[id].maxAttempts
            && db.challenges[id].resends <= db.challenges[id].maxResends
            && (db.challenges[id].consumedAt.Some? <==> id in db.actions))
  {
    RunKept(Empty(), actions);
  }

  /** A challenge whose attempts are used up, or that is gone, never has its action take effect later. */
  ghost predicate Closed(s: Sys, id: nat) {
    && id in s.used && id !in s.db.actions
    && (id in s.db.challenges ==> s.db.challenges[id].attempts >= s.db.challenges[id].maxAttempts)
  }

  lemma ClosedKept(s: Sys, action: Action, id: nat)
    requires Closed(s, id)
    ensures Closed(Apply(s, action), id)
  {
  }

  lemma {:induction false} ClosedForever(s: Sys, actions: seq<Action>, id: nat)
    requires Closed(s, id)
    ensures id !in Run(s, actions).db.actions
    decreases |actions|
  {
    if actions != [] {
      hide Closed, Apply;
      ClosedKept(s, actions[0], id);
      ClosedForever(Apply(s, actions[0]), actions[1..], id);
    }
  }

  /** What one verification does: a failing hook undoes everything; a wrong code is counted although
      the call fails; the error for a consumed challenge never comes after the action, so it leaves
      everything as it was; the action takes effect exactly in the calls that succeed. */
  lemma VerificationEffects(db: Db, id: nat, purpose: Purpose, code: string, now: int, beforeOk: bool, afterOk: bool)
    ensures var outcome := Verified(db, id, purpose, code, now, beforeOk, afterOk);
      && (outcome.result == Some(HookFailed) ==> outcome.db == db)
      && (outcome.result == Some(Consumed) ==> outcome.db == db)
      && (outcome.result == Some(InvalidCode) ==>
            && id in db.challenges
            && outcome.db.challenges ==
               db.challenges[id := db.challenges[id].(attempts := db.challenges[id].attempts + 1)]
            && outcome.db.actions == db.actions)
      && (outcome.db.actions == db.actions + [id] <==> outcome.result.None?)
      && (outcome.result.None? ==> id in outcome.db.challenges && outcome.db.challenges[id].consumedAt == Some(now))
  {
    if Verified(db, id, purpose, code, now, beforeOk, afterOk).db.actions == db.actions {
      assert |db.actions + [id]| == |db.actions| + 1;
    }
  }

  /** The call presents the code stored for an open challenge, before the code's deadline and the
      challenge's, and both hooks succeed. */
  ghost predicate Presents(s: Sys, action: Action, id: nat) {
    && action.Verify? && action.id == id && action.beforeOk && action.afterOk
    && Verifiable(s.db, id, action.purpose, action.now)
    && CodeStored(s.db, id, action.now) && s.db.codes[id].code == action.code
  }

  /** A step records an action exactly if its call presents the right code. */
  lemma StepRecords(s: Sys, action: Action)
    ensures if action.Verify? && Presents(s, action, action.id)
            then Apply(s, action).db.actions == s.db.actions + [action.id]
            else Apply(s, action).db.actions == s.db.actions
  {
    if action.Verify? {
      VerifiedIs(s.db, action.id, action.purpose, action.code, action.now, action.beforeOk, action.afterOk);
    }
  }

  lemma {:induction false} RunSplit(s: Sys, front: seq<Action>, last: Action)
    ensures Run(s, front + [last]) == Apply(Run(s, front), last)
    decreases |front|
  {
    hide Apply;
    if front == [] {
      assert [last][1..] == [] && front + [last] == [last];
    } else {
      assert (front + [last])[1..] == front[1..] + [last];
      RunSplit(Apply(s, front[0]), front[1..], last);
    }
  }

  /** Over every run, an action took effect exactly if some call of the run presented, at its point of
      the run, the code then stored for its challenge. */
  lemma {:induction false} ActionsNeedCodes(actions: seq<Action>, id: nat)
    ensures id in Run(Empty(), actions).db.actions <==>
      exists at | 0 <= at < |actions| :: Presents(Run(Empty(), actions[..at]), actions[at], id)
    decreases |actions|
  {
    if actions != [] {
      hide Apply, Presents;
      var n := |actions| - 1;
      var front, last := actions[..n], actions[n];
      assert actions == front + [last];
      RunSplit(Empty(), front, last);
      ActionsNeedCodes(front, id);
      StepRecords(Run(Empty(), front), last);
      OwnCode(Run(Empty(), front), last, id);
      forall at | 0 <= at < n ensures front[..at] == actions[..at] && front[at] == actions[at] {
      }
      assert actions[..n] == front;
    }
  }

  lemma OwnCode(s: Sys, action: Action, id: nat)
    ensures Presents(s, action, id) ==> action.Verify? && action.id == id
  {
  }

  /** Any challenge can be lived through, from the empty store: created, mailed, sent again once the interval
      is over, and verified to the last instant of both the code and the challenge. */
  lemma Lifetime(id: nat, purpose: Purpose, policy: Policy, code: Code, created: int, sent: int, resent: int,
                 legacyInterval: int, given: string, at: int)
    requires purpose != OtherPurpose && policy.maxAttempts > 0 && policy.maxResends > 0
    ensures var db := Run(Empty(), [Create(id, purpose, created, policy, true), SetCode(id, code), MailSent(id, sent),
                                    Resend(id, resent, legacyInterval, Present),
                                    Verify(id, purpose, given, at, true, true)]).db;
      && (id in db.actions <==> given == code.code && at <= code.expiresAt && at <= created + policy.ttl)
      && id in db.challenges
      && (db.challenges[id].resends == 1 <==> sent + policy.interval <= resent <= created + policy.ttl)
  {
    var first, second := Create(id, purpose, created, policy, true), SetCode(id, code);
    var third, fourth := MailSent(id, sent), Resend(id, resent, legacyInterval, Present);
    var fifth := Verify(id, purpose, given, at, true, true);
    var begun := Apply(Empty(), first);
    var coded := Apply(begun, second);
    var mailed := Apply(coded, third);
    var again := Apply(mailed, fourth);
    Five(Empty(), first, second, third, fourth, fifth);
    hide Run;
    CreatedIs(Empty().db, id, purpose, created, policy, true);
    ResentIs(mailed.db, id, resent, legacyInterval, Present);
    VerifiedIs(again.db, id, purpose, given, at, true, true);
  }

  lemma Five(s: Sys, a: Action, b: Action, c: Action, d: Action, e: Action)
    ensures Run(s, [a, b, c, d, e]) == Apply(Apply(Apply(Apply(Apply(s, a), b), c), d), e)
  {
    hide Apply;
    RunSplit(s, [a, b, c, d], e);
    RunSplit(s, [a, b, c], d);
    RunSplit(s, [a, b], c);
    RunSplit(s, [a], b);
    RunSplit(s, [], a);
    assert [a, b, c, d] + [e] == [a, b, c, d, e] && [a, b, c] + [d] == [a, b, c, d];
    assert [a, b] + [c] == [a, b, c] && [a] + [b] == [a, b] && [] + [a] == [a];
  }

  /** The cleanup job removes exactly the challenges past their deadline. */
  lemma CleanupIs(s: Sys, now: int)
    ensures var after := Apply(s, DeleteExpired(now)).db;
      && (forall id :: id in after.challenges <==> id in s.db.challenges && now <= s.db.challenges[id].expiresAt)
      && (forall id <- after.challenges :: after.challenges[id] == s.db.challenges[id])
      && after == s.db.(challenges := after.challenges)
  {
  }
}
