/** Access-token revocation markers: internal/session/token/revocations.go over the set-max
    script, with the marker lifetime of internal/bootstrap/revocations.go and the token
    lifetime that internal/config/runtime_service.go accepts.

    Instants are nanoseconds on one clock, which Redis reads in milliseconds. */
module Revocations {
  import opened Wrappers
  import opened Decimal
  import opened Redis

  const SECOND := 1_000_000_000
  const DAY := 86_400 * SECOND

  /** The longest access-token lifetime that validateSessionPolicies accepts. */
  const MAX_ACCESS_TOKEN_TTL := DAY

  type Id = nat

  /** The cache keys of the markers. */
  datatype Key =
    | TokenKey(token: Id)
    | SessionKey(session: Id)
    | UserKey(user: Id)
    | MembershipKey(member: Id, organization: Id)

  datatype Claims = Claims(id: Id, session: Id, user: Id, organization: Id, issuedAt: int, expiresAt: int)

  function Scopes(c: Claims): set<Key> {
    {SessionKey(c.session), UserKey(c.user), MembershipKey(c.user, c.organization)}
  }

  /** A NumericDate is cut to whole seconds. */
  function NumericDate(t: nat): nat { t / SECOND * SECOND }

  function Sign(id: Id, session: Id, user: Id, organization: Id, now: nat, ttl: nat): Claims {
    Claims(id, session, user, organization, NumericDate(now), NumericDate(now + ttl))
  }

  /** AccessTokenRevocationMarkerTTL, in milliseconds. */
  function MarkerTTL(accessTokenTTL: int): int {
    (if accessTokenTTL > MAX_ACCESS_TOKEN_TTL then accessTokenTTL else MAX_ACCESS_TOKEN_TTL) / MILLISECOND
  }

  datatype Verdict = Accepted | RevokedToken | StoreUnavailable

  /** One scope's marker; `next` is the verdict of the scopes after it. */
  function CheckScope(value: Option<Entry>, issuedAt: int, next: Verdict): Verdict {
    if value.None? then next
    else if !IsNumeral(value.value.value) then StoreUnavailable
    else if issuedAt <= Value(value.value.value) then RevokedToken
    else next
  }

  /** Check: the token's own marker, then the three scopes in order. */
  function Check(entries: map<Key, Entry>, now: nat, c: Claims): Verdict {
    var ms := now / MILLISECOND;
    if Lookup(entries, TokenKey(c.id), ms).Some? then RevokedToken
    else
      CheckScope(Lookup(entries, SessionKey(c.session), ms), c.issuedAt,
      CheckScope(Lookup(entries, UserKey(c.user), ms), c.issuedAt,
      CheckScope(Lookup(entries, MembershipKey(c.user, c.organization), ms), c.issuedAt, Accepted)))
  }

  // Runs

  /** A revocation of a scope: the cutoff it asked for. */
  datatype Revocation = Revocation(key: Key, at: nat)

  /** `log` records every scope revocation of the run, `revokedTokens` the expiry of every token revoked
      by its identifier. */
  datatype Sys = Sys(clock: nat, entries: map<Key, Entry>, log: set<Revocation>, revokedTokens: map<Id, int>)

  function Init(clock: nat): Sys { Sys(clock, map[], {}, map[]) }

  datatype Action =
    | Tick(elapsed: nat)
    // markers may arrive in any order; `accessTokenTTL` is the setting at this moment
    | RevokeScope(key: Key, at: nat, accessTokenTTL: int)
    | RevokeToken(token: Id, expiresAt: int)

  /** The milliseconds that the client library asks for: cut, but never none. */
  function TokenTTL(ttl: int): int {
    if ttl < MILLISECOND then 1 else ttl / MILLISECOND
  }

  /** An identifier stands for one token, whose expiry is a NumericDate. */
  predicate OwnExpiry(s: Sys, token: Id, expiresAt: int) {
    expiresAt % SECOND == 0 && (token in s.revokedTokens ==> s.revokedTokens[token] == expiresAt)
  }

  /** The cutoff of a revocation is not ahead of the clock. */
  function Apply(s: Sys, a: Action): Sys {
    match a
    case Tick(elapsed) => s.(clock := s.clock + elapsed)
    case RevokeScope(key, at, accessTokenTTL) =>
      if key.TokenKey? || at > s.clock then s
      else
        var ms := s.clock / MILLISECOND;
        var r := MaxEntry(Lookup(s.entries, key, ms), Format(at), MarkerTTL(accessTokenTTL), ms);
        if r.Err? then s else s.(entries := s.entries[key := r.value], log := s.log + {Revocation(key, at)})
    case RevokeToken(token, expiresAt) =>
      if expiresAt <= s.clock || !OwnExpiry(s, token, expiresAt) then s
      else
        var deadline := s.clock / MILLISECOND + TokenTTL(expiresAt - s.clock);
        s.(entries := s.entries[TokenKey(token) := Entry("1", Some(deadline))],
           revokedTokens := s.revokedTokens[token := expiresAt])
  }

  function Run(s: Sys, actions: seq<Action>): Sys
    decreases |actions|
  {
    if actions == [] then s else Run(Apply(s, actions[0]), actions[1..])
  }

  /** The last millisecond at which a token issued by `at` may still be unexpired. */
  function Horizon(at: nat): nat { at / MILLISECOND + MAX_ACCESS_TOKEN_TTL / MILLISECOND }

  ghost predicate MarkerOk(s: Sys, key: Key) {
    key in s.entries ==>
      var e := s.entries[key];
      IsCanonical(e.value) && e.deadline.Some? && Revocation(key, Value(e.value)) in s.log
  }

  /** While it matters, the revocation is covered by a live marker that is at least as late. */
  ghost predicate Covered(s: Sys, r: Revocation) {
    && !r.key.TokenKey? && r.at <= s.clock
    && (s.clock / MILLISECOND <= Horizon(r.at) ==>
          r.key in s.entries && IsNumeral(s.entries[r.key].value) && r.at <= Value(s.entries[r.key].value) &&
          s.entries[r.key].deadline.Some? && Horizon(r.at) <= s.entries[r.key].deadline.value)
  }

  /** Up to its token's expiry, a token marker lives. */
  ghost predicate TokenCovered(s: Sys, token: Id, expiresAt: int) {
    && expiresAt % SECOND == 0
    && (s.clock < expiresAt ==>
          TokenKey(token) in s.entries && s.entries[TokenKey(token)].deadline.Some? &&
          expiresAt / MILLISECOND - 1 <= s.entries[TokenKey(token)].deadline.value)
  }

  ghost predicate Inv(s: Sys) {
    && (forall t <- s.revokedTokens :: TokenCovered(s, t, s.revokedTokens[t]))
    && (forall key: Key :: !key.TokenKey? ==> MarkerOk(s, key))
    && (forall r <- s.log :: Covered(s, r))
    && (forall t: Id :: TokenKey(t) in s.entries ==> t in s.revokedTokens)
  }

  lemma RaisedDeadline(current: Option<Entry>, candidate: string, ttl: int, ms: int)
    requires ttl > 0
    requires current.Some? ==>
        Live(current.value, ms) && IsNumeral(current.value.value) && current.value.deadline.Some?
    ensures var r := MaxEntry(current, candidate, ttl, ms);
            && r.Ok? && r.value.deadline.Some? && ms + ttl <= r.value.deadline.value
            && (current.Some? ==> current.value.deadline.value <= r.value.deadline.value)
  {
    hide LengthThenText, IsNumeral;
  }

  /** What the set-max script leaves: canonical, at least as late as both values, alive for the whole
      lifetime asked for and for what was left of the old one. */
  lemma RaisedEntry(current: Option<Entry>, at: nat, ttl: int, ms: int)
    requires ttl > 0
    requires current.Some? ==>
        Live(current.value, ms) && IsCanonical(current.value.value) && current.value.deadline.Some?
    ensures var r := MaxEntry(current, Format(at), ttl, ms);
            && r.Ok? && IsCanonical(r.value.value) && at <= Value(r.value.value)
            && Value(r.value.value) in (if current.Some? then {Value(current.value.value), at} else {at})
            && r.value.deadline.Some? && ms + ttl <= r.value.deadline.value
            && (current.Some? ==>
                  && Value(current.value.value) <= Value(r.value.value)
                  && current.value.deadline.value <= r.value.deadline.value)
  {
    MaxEntryIsMax(current, at, ttl, ms);
    RaisedDeadline(current, Format(at), ttl, ms);
    hide Format, MaxEntry, Numeral, Value, Live;
  }

  lemma MarkerTTLCovers(accessTokenTTL: int)
    ensures MarkerTTL(accessTokenTTL) >= MAX_ACCESS_TOKEN_TTL / MILLISECOND > 0
  {
  }

  /** The new marker is canonical, at least as late as both, and outlives the old one. */
  lemma RaisedMarker(s: Sys, key: Key, at: nat, accessTokenTTL: int)
    requires Inv(s) && !key.TokenKey? && at <= s.clock
    ensures var s' := Apply(s, RevokeScope(key, at, accessTokenTTL));
            var ms := s.clock / MILLISECOND;
            && s'.log == s.log + {Revocation(key, at)} && s'.clock == s.clock && s'.revokedTokens == s.revokedTokens
            && key in s'.entries && s'.entries == s.entries[key := s'.entries[key]]
            && MarkerOk(s', key) && IsNumeral(s'.entries[key].value) && at <= Value(s'.entries[key].value)
            && s'.entries[key].deadline.Some? && Horizon(s.clock) <= s'.entries[key].deadline.value
            && (key in s.entries && Live(s.entries[key], ms) ==>
                  && IsNumeral(s.entries[key].value) && s.entries[key].deadline.Some?
                  && Value(s.entries[key].value) <= Value(s'.entries[key].value)
                  && s.entries[key].deadline.value <= s'.entries[key].deadline.value)
  {
    var ms := s.clock / MILLISECOND;
    var current := Lookup(s.entries, key, ms);
    assert MarkerOk(s, key);
    MarkerTTLCovers(accessTokenTTL);
    RaisedEntry(current, at, MarkerTTL(accessTokenTTL), ms);
    hide Inv, MaxEntry, Format, Value, MarkerTTL;
  }

  lemma HorizonMonotone(at: nat, clock: nat)
    requires at <= clock
    ensures Horizon(at) <= Horizon(clock) && at / MILLISECOND <= clock / MILLISECOND
  {
  }

  lemma RevokeScopeKept(s: Sys, key: Key, at: nat, accessTokenTTL: int)
    requires Inv(s) && !key.TokenKey? && at <= s.clock
    ensures Inv(Apply(s, RevokeScope(key, at, accessTokenTTL)))
  {
    hide Apply, Horizon;
    var s' := Apply(s, RevokeScope(key, at, accessTokenTTL));
    RaisedMarker(s, key, at, accessTokenTTL);
    HorizonMonotone(at, s.clock);
    forall r <- s'.log ensures Covered(s', r) {
      if r != Revocation(key, at) {
        assert Covered(s, r);
      }
    }
    forall k: Key | !k.TokenKey? ensures MarkerOk(s', k) {
      assert MarkerOk(s, k);
    }
    forall t <- s'.revokedTokens ensures TokenCovered(s', t, s'.revokedTokens[t]) {
      assert TokenCovered(s, t, s.revokedTokens[t]);
    }
  }

  lemma TokenTTLReaches(clock: nat, expiresAt: int)
    requires clock < expiresAt && expiresAt % SECOND == 0
    ensures var deadline := clock / MILLISECOND + TokenTTL(expiresAt - clock);
      && expiresAt / MILLISECOND - 1 <= deadline <= expiresAt / MILLISECOND
      && (deadline == expiresAt / MILLISECOND <==> clock % MILLISECOND == 0 || expiresAt - clock < MILLISECOND)
  {
    var e, c, rest := expiresAt / SECOND * 1000, clock / MILLISECOND, clock % MILLISECOND;
    WholeMilliseconds(expiresAt);
    if rest == 0 {
      QuotientIs(expiresAt - clock, e - c, 0);
    } else {
      QuotientIs(expiresAt - clock, e - c - 1, MILLISECOND - rest);
    }
  }

  lemma WholeMilliseconds(t: int)
    requires t % SECOND == 0
    ensures t == t / MILLISECOND * MILLISECOND && t / MILLISECOND == t / SECOND * 1000
  {
    QuotientIs(t, t / SECOND * 1000, 0);
  }

  lemma QuotientIs(x: int, q: int, r: int)
    requires x == q * MILLISECOND + r && 0 <= r < MILLISECOND
    ensures x / MILLISECOND == q && x % MILLISECOND == r
  {
  }

  lemma ApplyKept(s: Sys, a: Action)
    requires Inv(s)
    ensures Inv(Apply(s, a))
  {
    var s' := Apply(s, a);
    if a.RevokeScope? {
      if !a.key.TokenKey? && a.at <= s.clock {
        RevokeScopeKept(s, a.key, a.at, a.accessTokenTTL);
      }
    } else {
      forall r <- s'.log ensures Covered(s', r) {
        assert Covered(s, r);
      }
      forall k: Key | !k.TokenKey? ensures MarkerOk(s', k) {
        assert MarkerOk(s, k);
      }
      if a.RevokeToken? && a.expiresAt > s.clock && a.expiresAt % SECOND == 0 {
        TokenTTLReaches(s.clock, a.expiresAt);
      }
      forall t <- s'.revokedTokens ensures TokenCovered(s', t, s'.revokedTokens[t]) {
        assert t in s.revokedTokens ==> TokenCovered(s, t, s.revokedTokens[t]);
      }
    }
  }

  lemma {:induction false} RunKept(s: Sys, actions: seq<Action>)
    requires Inv(s)
    ensures Inv(Run(s, actions))
    decreases |actions|
  {
    if actions != [] {
      ApplyKept(s, actions[0]);
      RunKept(Apply(s, actions[0]), actions[1..]);
    }
  }

  /** A live marker of the scope is no earlier than the issue time. */
  ghost predicate Cuts(s: Sys, key: Key, issuedAt: int) {
    Lookup(s.entries, key, s.clock / MILLISECOND).Some? && IsNumeral(s.entries[key].value) &&
        issuedAt <= Value(s.entries[key].value)
  }

  lemma CheckVerdict(s: Sys, c: Claims)
    requires Inv(s)
    ensures var verdict := Check(s.entries, s.clock, c);
            && verdict != StoreUnavailable
            && (verdict == RevokedToken <==>
                  (Lookup(s.entries, TokenKey(c.id), s.clock / MILLISECOND).Some? ||
                   Cuts(s, SessionKey(c.session), c.issuedAt) || Cuts(s, UserKey(c.user), c.issuedAt) ||
                   Cuts(s, MembershipKey(c.user, c.organization), c.issuedAt)))
  {
    assert MarkerOk(s, SessionKey(c.session)) && MarkerOk(s, UserKey(c.user)) &&
        MarkerOk(s, MembershipKey(c.user, c.organization));
  }

  lemma RevokedByScope(s: Sys, r: Revocation, c: Claims)
    requires Inv(s) && r in s.log && r.key in Scopes(c)
    requires c.issuedAt <= r.at && c.expiresAt <= r.at + MAX_ACCESS_TOKEN_TTL
    ensures s.clock <= c.expiresAt ==> Check(s.entries, s.clock, c) == RevokedToken
  {
    CheckVerdict(s, c);
    if s.clock <= c.expiresAt {
      assert Covered(s, r);
      assert s.clock <= r.at + MAX_ACCESS_TOKEN_TTL;
      assert s.clock / MILLISECOND <= Horizon(r.at);
      assert Lookup(s.entries, r.key, s.clock / MILLISECOND).Some?;
    }
  }

  /** At every instant of every run, a token signed no later than a recorded revocation of one
      of its scopes is rejected for as long as it has not expired, whatever markers came
      before, between or after, in whatever order and under whatever lifetime setting. */
  lemma RevokedTokenRejected(clock: nat, actions: seq<Action>, r: Revocation, id: Id, session: Id, user: Id,
                             organization: Id, signedAt: nat, ttl: nat)
    requires ttl <= MAX_ACCESS_TOKEN_TTL && signedAt <= r.at
    requires r in Run(Init(clock), actions).log && r.key in Scopes(Sign(id, session, user, organization, signedAt, ttl))
    ensures var s := Run(Init(clock), actions);
            var c := Sign(id, session, user, organization, signedAt, ttl);
            s.clock <= c.expiresAt ==> Check(s.entries, s.clock, c) == RevokedToken
  {
    RunKept(Init(clock), actions);
    RevokedByScope(Run(Init(clock), actions), r, Sign(id, session, user, organization, signedAt, ttl));
  }

  /** A token is rejected only if it was revoked itself or a recorded revocation of one of its
      scopes has a cutoff no earlier than its issue time. */
  lemma OnlyRevokedTokensRejected(clock: nat, actions: seq<Action>, c: Claims)
    ensures var s := Run(Init(clock), actions);
            Check(s.entries, s.clock, c) != Accepted ==>
              c.id in s.revokedTokens || exists r <- s.log :: r.key in Scopes(c) && c.issuedAt <= r.at
  {
    var s := Run(Init(clock), actions);
    RunKept(Init(clock), actions);
    CheckVerdict(s, c);
    if Check(s.entries, s.clock, c) != Accepted && c.id !in s.revokedTokens {
      var key := if Cuts(s, SessionKey(c.session), c.issuedAt) then SessionKey(c.session)
                 else if Cuts(s, UserKey(c.user), c.issuedAt) then UserKey(c.user)
                 else MembershipKey(c.user, c.organization);
      assert Cuts(s, key, c.issuedAt) && MarkerOk(s, key);
      var r := Revocation(key, Value(s.entries[key].value));
      assert r in s.log && r.key in Scopes(c);
    }
  }

  /** A token revoked by its identifier is rejected at every later instant before it expires. */
  lemma RevokedIdentifierRejected(clock: nat, actions: seq<Action>, c: Claims)
    requires var s := Run(Init(clock), actions); c.id in s.revokedTokens && s.revokedTokens[c.id] == c.expiresAt
    ensures var s := Run(Init(clock), actions);
            s.clock < c.expiresAt ==> Check(s.entries, s.clock, c) == RevokedToken
  {
    var s := Run(Init(clock), actions);
    RunKept(Init(clock), actions);
    assert TokenCovered(s, c.id, c.expiresAt);
    hide Run, Inv, CheckScope, Value;
    WholeMilliseconds(c.expiresAt);
  }

  /** At the very instant of its expiry the marker is still there exactly when it was written at a whole
      millisecond or in the last one: both times are cut to milliseconds. */
  lemma MarkerAtExpiry(s: Sys, token: Id, expiresAt: int)
    requires s.clock < expiresAt && OwnExpiry(s, token, expiresAt)
    ensures Lookup(Apply(s, RevokeToken(token, expiresAt)).entries, TokenKey(token), expiresAt / MILLISECOND).Some? <==>
      s.clock % MILLISECOND == 0 || expiresAt - s.clock < MILLISECOND
  {
    TokenTTLReaches(s.clock, expiresAt);
  }

  // Revocations take effect

  lemma {:induction false} RunGrows(s: Sys, actions: seq<Action>)
    ensures var s' := Run(s, actions);
      && s.clock <= s'.clock && s.log <= s'.log
      && forall t <- s.revokedTokens :: t in s'.revokedTokens && s'.revokedTokens[t] == s.revokedTokens[t]
    decreases |actions|
  {
    if actions != [] {
      hide MaxEntry, Format, TokenTTL, MarkerTTL;
      RunGrows(Apply(s, actions[0]), actions[1..]);
    }
  }

  lemma {:induction false} RunAppend(s: Sys, first: seq<Action>, second: seq<Action>)
    ensures Run(s, first + second) == Run(Run(s, first), second)
    decreases |first|
  {
    if first == [] {
      assert first + second == second;
    } else {
      hide Apply;
      assert (first + second)[1..] == first[1..] + second;
      RunAppend(Apply(s, first[0]), first[1..], second);
    }
  }

  /** After whatever has happened, revoking a session, a user or a membership from some instant on makes the
      check reject its tokens signed by then, after whatever happens next, to the last instant of their
      lives; time passes as the run says. */
  lemma ScopeRevocationTakesEffect(clock: nat, before: seq<Action>, key: Key, at: nat, accessTokenTTL: int,
                                   elapsed: nat, after: seq<Action>, id: Id, session: Id, user: Id, organization: Id,
                                   signedAt: nat, ttl: nat)
    requires key == SessionKey(session) || key == UserKey(user) || key == MembershipKey(user, organization)
    requires signedAt <= at <= Run(Init(clock), before).clock && ttl <= 86_400_000_000_000
    ensures var s := Run(Init(clock), before + [RevokeScope(key, at, accessTokenTTL), Tick(elapsed)] + after);
      var c := Sign(id, session, user, organization, signedAt, ttl);
      && Run(Init(clock), before).clock + elapsed <= s.clock
      && (s.clock <= c.expiresAt ==> Check(s.entries, s.clock, c) == RevokedToken)
  {
    var actions := [RevokeScope(key, at, accessTokenTTL), Tick(elapsed)];
    var start := Run(Init(clock), before);
    RunAppend(Init(clock), before + actions, after);
    RunAppend(Init(clock), before, actions);
    TwoSteps(start, actions[0], actions[1]);
    RunKept(Init(clock), before);
    RaisedMarker(start, key, at, accessTokenTTL);
    RunGrows(Run(start, actions), after);
    hide Run, Inv, Check;
    RevokedTokenRejected(clock, before + actions + after, Revocation(key, at), id, session, user, organization,
                         signedAt, ttl);
  }

  lemma TwoSteps(s: Sys, a: Action, b: Action)
    ensures Run(s, [a, b]) == Apply(Apply(s, a), b)
  {
    hide Apply;
    assert [a, b][1..] == [b] && [b][1..] == [];
    assert Run(Apply(s, a), [b]) == Run(Apply(Apply(s, a), b), []);
  }

  /** Revoking an unexpired token by its identifier makes the check reject it until it expires. */
  lemma TokenRevocationTakesEffect(clock: nat, before: seq<Action>, c: Claims, after: seq<Action>)
    requires var s := Run(Init(clock), before);
      && s.clock < c.expiresAt && c.expiresAt % 1_000_000_000 == 0
      && (c.id in s.revokedTokens ==> s.revokedTokens[c.id] == c.expiresAt)
    ensures var s := Run(Init(clock), before + [RevokeToken(c.id, c.expiresAt), Tick(0)] + after);
      s.clock < c.expiresAt ==> Check(s.entries, s.clock, c) == RevokedToken
  {
    var actions := [RevokeToken(c.id, c.expiresAt), Tick(0)];
    var start := Run(Init(clock), before);
    RunAppend(Init(clock), before + actions, after);
    RunAppend(Init(clock), before, actions);
    TwoSteps(start, actions[0], actions[1]);
    RunGrows(Run(start, actions), after);
    hide Run, Inv, Check;
    RevokedIdentifierRejected(clock, before + actions + after, c);
  }
}
