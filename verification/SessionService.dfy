/** internal/session/service.go with each transaction as one atomic step. */
module SessionService {
  import opened Wrappers
  import opened SessionData

  datatype SessionError =
    | InvalidRefreshToken
    | InvalidSession
    | Forbidden
    // joined with the cache error when the marker write failed
    | RefreshTokenReuse(marked: bool)
    | ReuseDetected
    | SessionNotFound
    // a check on another table refused, or a statement failed and the transaction rolled back
    | Aborted

  /** A granted call hands out an access token for the session and this refresh token. */
  datatype Grant = Grant(session: SessionId, refreshToken: TokenHash)

  type Outcome = Result<Grant, SessionError>

  // Transactions as functions of the tables

  /** `id` is a fresh row identifier and `hash` the hash of a fresh random token; an
      insertion that meets a used one fails. */
  function Created(db: Tables, id: SessionId, hash: TokenHash, user: UserId, organization: OrganizationId,
                   allowed: bool, now: int, databaseNow: int, policy: SessionPolicy): (Tables, Outcome) {
    if !allowed || id in db.sessions || hash in db.tokens then (db, Err(Aborted))
    else (OpenSession(db, id, hash, user, organization, now, databaseNow, policy), Ok(Grant(id, hash)))
  }

  function Switched(db: Tables, user: UserId, id: SessionId, organization: OrganizationId, allowed: bool,
                    successor: TokenHash, now: int, policy: SessionPolicy): (Tables, Outcome) {
    if id !in db.sessions || !Active(db.sessions[id], now) then (db, Err(InvalidSession))
    else if db.sessions[id].user != user then (db, Err(Forbidden))
    else if !allowed || successor in db.tokens then (db, Err(Aborted))
    else (SwitchOrganization(db, id, organization, TokensOf(db, {id}), successor, now, policy),
          Ok(Grant(id, successor)))
  }

  /** The refreshing transaction; it reports a consumed token without touching the tables. */
  function RefreshTx(db: Tables, hash: TokenHash, allowed: bool, successor: TokenHash, now: int, policy: SessionPolicy)
    : (Tables, Outcome)
  {
    if hash !in db.tokens then (db, Err(InvalidRefreshToken))
    else
      var token := db.tokens[hash];
      if token.consumedAt.Some? then (db, Err(ReuseDetected))
      else if token.expiresAt < now || token.session !in db.sessions then (db, Err(InvalidRefreshToken))
      else
        var session := db.sessions[token.session];
        if session.expiresAt < now || session.revokedAt.Some? then (db, Err(InvalidRefreshToken))
        else if !allowed then (db, Err(Aborted))
        else if !ShouldRotate(token, now, policy.rotation) then (db, Ok(Grant(token.session, hash)))
        else if successor in db.tokens then (db, Err(Aborted))
        else (RotateToken(db, hash, successor, now, policy, session.expiresAt), Ok(Grant(token.session, successor)))
  }

  /** The revoking transaction that follows a detected reuse; a failed marker write does not
      stop it, a failed statement (`stored` is false) rolls it back. */
  function ReuseTx(db: Tables, id: SessionId, observedAt: int, marked: bool, stored: bool): (Tables, SessionError) {
    if id !in db.sessions then (db, SessionNotFound)
    else if !stored then (db, Aborted)
    else (Revoke(db, {id}, observedAt), RefreshTokenReuse(marked))
  }

  function Refreshed(db: Tables, hash: TokenHash, allowed: bool, marked: bool, stored: bool, successor: TokenHash,
                     now: int, policy: SessionPolicy): (Tables, Outcome)
  {
    var (db', outcome) := RefreshTx(db, hash, allowed, successor, now, policy);
    if outcome == Err(ReuseDetected) then
      var (revoked, error) := ReuseTx(db, db.tokens[hash].session, now, marked, stored);
      (revoked, Err(error))
    else (db', outcome)
  }

  predicate ReportsReuse(outcome: Outcome) {
    outcome.Err? && outcome.error.RefreshTokenReuse?
  }

  // Below, `stored` says that the marker write and every statement succeeded.

  function LoggedOut(db: Tables, hash: TokenHash, clock: int, stored: bool): Tables {
    if !stored || hash !in db.tokens || db.tokens[hash].session !in db.sessions then db
    else Revoke(db, {db.tokens[hash].session}, clock)
  }

  function AllRevoked(db: Tables, user: UserId, clock: int, stored: bool): Tables {
    if stored then Revoke(db, UnrevokedSessionsOf(db, user), clock) else db
  }

  function OneRevoked(db: Tables, user: UserId, id: SessionId, now: int, stored: bool): Tables {
    if !stored || id !in db.sessions || db.sessions[id].user != user then db
    else DeleteTokens(Revoke(db, {id}, now), TokensOf(db, {id}))
  }

  function OthersRevoked(db: Tables, user: UserId, keep: SessionId, now: int, stored: bool): Tables {
    if !stored then db
    else DeleteTokens(Revoke(db, UnrevokedSessionsOf(db, user) - {keep}, now),
                      TokensOf(db, SessionsOf(db, user) - {keep}))
  }

  // What each transaction does, row by row

  /** A token that a refresh hands back: rotation is off, or the token is younger than the interval. */
  predicate KeepsToken(token: RefreshToken, now: int, rotation: int) {
    rotation == 0 || (rotation > 0 && now - token.createdAt < rotation)
  }

  /** The token and its session are good, to the last instant of either, and a rotated token can be stored. */
  predicate MayRefresh(db: Tables, hash: TokenHash, allowed: bool, successor: TokenHash, now: int,
                       policy: SessionPolicy)
  {
    && allowed && hash in db.tokens
    && var token := db.tokens[hash];
    && token.consumedAt.None? && now <= token.expiresAt && token.session in db.sessions
    && var session := db.sessions[token.session];
    && session.revokedAt.None? && now <= session.expiresAt
    && (KeepsToken(token, now, policy.rotation) || successor !in db.tokens)
  }

  /** No row but those of the two tokens changes: the used one is marked, and its successor, for the same
      session and organization, ends with the refresh-token lifetime or with the session, if that is sooner. */
  ghost predicate Rotated(before: Tables, after: Tables, hash: TokenHash, successor: TokenHash, now: int,
                          policy: SessionPolicy)
  {
    && hash in before.tokens && before.tokens[hash].session in before.sessions
    && var token, session := before.tokens[hash], before.sessions[before.tokens[hash].session];
    && after.sessions == before.sessions
    && successor !in before.tokens && after.tokens.Keys == before.tokens.Keys + {successor}
    && (forall h <- before.tokens | h != hash :: after.tokens[h] == before.tokens[h])
    && after.tokens[hash] ==
         RefreshToken(token.session, token.organization, token.createdAt, token.expiresAt, Some(now))
    && after.tokens[successor] ==
         RefreshToken(token.session, token.organization, now,
                      if now + policy.refreshTokenTTL <= session.expiresAt then now + policy.refreshTokenTTL
                      else session.expiresAt, None)
  }

  /** Exactly these sessions are marked as revoked at this instant; no other row, and nothing else in
      theirs, changes. */
  ghost predicate RevokedRows(before: Tables, after: Tables, ids: iset<SessionId>, at: int) {
    && after.sessions.Keys == before.sessions.Keys
    && forall id <- before.sessions ::
         var session := before.sessions[id];
         after.sessions[id] ==
           if id in ids then Session(session.user, session.organization, session.expiresAt, Some(at)) else session
  }

  /** The tokens of exactly these sessions are gone. */
  ghost predicate TokensGone(before: Tables, after: Tables, ids: iset<SessionId>) {
    && (forall h :: h in after.tokens <==> h in before.tokens && before.tokens[h].session !in ids)
    && (forall h <- after.tokens :: after.tokens[h] == before.tokens[h])
  }

  /** When a refresh succeeds, when it rotates, and what it and the answer to a reused token change. */
  lemma RefreshIs(db: Tables, hash: TokenHash, allowed: bool, marked: bool, stored: bool, successor: TokenHash,
                  now: int, policy: SessionPolicy)
    ensures var (after, outcome) := Refreshed(db, hash, allowed, marked, stored, successor, now, policy);
      && (outcome.Ok? <==> MayRefresh(db, hash, allowed, successor, now, policy))
      && (outcome.Ok? && KeepsToken(db.tokens[hash], now, policy.rotation) ==>
            after == db && outcome.value == Grant(db.tokens[hash].session, hash))
      && (outcome.Ok? && !KeepsToken(db.tokens[hash], now, policy.rotation) ==>
            && Rotated(db, after, hash, successor, now, policy)
            && outcome.value == Grant(db.tokens[hash].session, successor))
      && (ReportsReuse(outcome) ==>
            && hash in db.tokens && after.tokens == db.tokens
            && RevokedRows(db, after, iset{db.tokens[hash].session}, now))
      && (outcome.Err? && !ReportsReuse(outcome) ==> after == db)
  {
  }

  predicate MaySwitch(db: Tables, user: UserId, id: SessionId, allowed: bool, successor: TokenHash, now: int) {
    && allowed && id in db.sessions && successor !in db.tokens
    && var session := db.sessions[id];
    && session.user == user && session.revokedAt.None? && now < session.expiresAt
  }

  /** The session is in the organization asked for; its only token is the new one, for that organization;
      no other session and no other session's token changes. */
  ghost predicate Moved(before: Tables, after: Tables, id: SessionId, organization: OrganizationId,
                        successor: TokenHash, now: int, policy: SessionPolicy)
  {
    && id in before.sessions
    && var session := before.sessions[id];
    && after.sessions ==
         before.sessions[id := Session(session.user, organization, session.expiresAt, session.revokedAt)]
    && successor in after.tokens
    && after.tokens[successor] ==
         RefreshToken(id, organization, now,
                      if now + policy.refreshTokenTTL <= session.expiresAt then now + policy.refreshTokenTTL
                      else session.expiresAt, None)
    && (forall h | h != successor :: h in after.tokens <==> h in before.tokens && before.tokens[h].session != id)
    && (forall h <- after.tokens | h != successor :: after.tokens[h] == before.tokens[h])
  }

  /** When a switch succeeds, and that it switches. */
  lemma SwitchIs(db: Tables, user: UserId, id: SessionId, organization: OrganizationId, allowed: bool,
                 successor: TokenHash, now: int, policy: SessionPolicy)
    ensures var (after, outcome) := Switched(db, user, id, organization, allowed, successor, now, policy);
      && (outcome.Ok? <==> MaySwitch(db, user, id, allowed, successor, now))
      && (outcome.Ok? ==>
            outcome.value == Grant(id, successor) && Moved(db, after, id, organization, successor, now, policy))
      && (outcome.Err? ==> after == db)
  {
  }

  /** A session and its one token, with their lifetimes; nothing else changes. */
  ghost predicate SessionOpened(before: Tables, after: Tables, id: SessionId, hash: TokenHash, user: UserId,
                                organization: OrganizationId, now: int, databaseNow: int, policy: SessionPolicy)
  {
    && after.sessions == before.sessions[id := Session(user, organization, now + policy.sessionTTL, None)]
    && after.tokens ==
         before.tokens[hash := RefreshToken(id, organization, databaseNow, now + policy.refreshTokenTTL, None)]
  }

  lemma CreateIs(db: Tables, id: SessionId, hash: TokenHash, user: UserId, organization: OrganizationId, allowed: bool,
                 now: int, databaseNow: int, policy: SessionPolicy)
    ensures var (after, outcome) := Created(db, id, hash, user, organization, allowed, now, databaseNow, policy);
      && (outcome.Ok? <==> allowed && id !in db.sessions && hash !in db.tokens)
      && (outcome.Ok? ==>
            && outcome.value == Grant(id, hash)
            && SessionOpened(db, after, id, hash, user, organization, now, databaseNow, policy))
      && (outcome.Err? ==> after == db)
  {
  }

  /** The sessions of the user, but for one. */
  ghost function OthersOf(db: Tables, user: UserId, keep: SessionId): iset<SessionId> {
    iset id | id in db.sessions && db.sessions[id].user == user && id != keep
  }

  /** The sessions of the user that are not revoked. */
  ghost function OpenOf(db: Tables, user: UserId): iset<SessionId> {
    iset id | id in db.sessions && db.sessions[id].user == user && db.sessions[id].revokedAt.None?
  }

  /** What each revocation changes; a failed one changes nothing. */
  lemma RevocationsAre(db: Tables, user: UserId, id: SessionId, hash: TokenHash, now: int)
    ensures var after := LoggedOut(db, hash, now, true);
      if hash in db.tokens && db.tokens[hash].session in db.sessions
      then after.tokens == db.tokens && RevokedRows(db, after, iset{db.tokens[hash].session}, now) else after == db
    ensures var after := OneRevoked(db, user, id, now, true);
      if id in db.sessions && db.sessions[id].user == user
      then RevokedRows(db, after, iset{id}, now) && TokensGone(db, after, iset{id}) else after == db
    ensures var after := OthersRevoked(db, user, id, now, true);
      && RevokedRows(db, after, OpenOf(db, user) - iset{id}, now)
      && TokensGone(db, after, OthersOf(db, user, id))
    ensures var after := AllRevoked(db, user, now, true);
      && after.tokens == db.tokens
      && RevokedRows(db, after, OpenOf(db, user), now)
    ensures LoggedOut(db, hash, now, false) == OneRevoked(db, user, id, now, false) == db
    ensures OthersRevoked(db, user, id, now, false) == AllRevoked(db, user, now, false) == db
  {
  }

  lemma OthersRows(db: Tables, user: UserId, keep: SessionId, now: int)
    ensures var after := OthersRevoked(db, user, keep, now, true);
      && after.sessions.Keys == db.sessions.Keys
      && (forall sid <- db.sessions ::
            after.sessions[sid] ==
            if db.sessions[sid].user == user && sid != keep && db.sessions[sid].revokedAt.None?
            then db.sessions[sid].(revokedAt := Some(now)) else db.sessions[sid])
      && (forall h :: h in after.tokens <==>
            h in db.tokens && !(var id := db.tokens[h].session;
                                id in db.sessions && db.sessions[id].user == user && id != keep))
      && (forall h <- after.tokens :: after.tokens[h] == db.tokens[h])
  {
  }

  /** The two tables, updated row by row. */
  class SessionService {
    var sessions: map<SessionId, Session>
    var tokens: map<TokenHash, RefreshToken>

    function Db(): Tables
      reads this
    {
      Tables(sessions, tokens)
    }

    constructor ()
      ensures Db() == EMPTY_TABLES
    {
      sessions, tokens := map[], map[];
    }

    method CreateSession(id: SessionId, hash: TokenHash, user: UserId, organization: OrganizationId, allowed: bool,
                         now: int, databaseNow: int, policy: SessionPolicy)
      returns (outcome: Outcome)
      modifies this
      ensures (Db(), outcome) == Created(old(Db()), id, hash, user, organization, allowed, now, databaseNow, policy)
      ensures outcome.Ok? <==> allowed && id !in old(sessions) && hash !in old(tokens)
      ensures if outcome.Ok? then SessionOpened(old(Db()), Db(), id, hash, user, organization, now, databaseNow, policy)
              else Db() == old(Db())
    {
      CreateIs(Db(), id, hash, user, organization, allowed, now, databaseNow, policy);
      if !allowed || id in sessions || hash in tokens {
        return Err(Aborted);
      }
      sessions := sessions[id := Session(user, organization, now + policy.sessionTTL, None)];
      tokens := tokens[hash := RefreshToken(id, organization, databaseNow, now + policy.refreshTokenTTL, None)];
      outcome := Ok(Grant(id, hash));
    }

    method SwitchSessionOrganization(user: UserId, id: SessionId, organization: OrganizationId, allowed: bool,
                                     successor: TokenHash, now: int, policy: SessionPolicy)
      returns (outcome: Outcome)
      modifies this
      ensures (Db(), outcome) == Switched(old(Db()), user, id, organization, allowed, successor, now, policy)
      ensures outcome.Ok? <==> MaySwitch(old(Db()), user, id, allowed, successor, now)
      ensures if outcome.Ok? then Moved(old(Db()), Db(), id, organization, successor, now, policy)
              else Db() == old(Db())
    {
      hide MaySwitch, Moved;
      SwitchIs(Db(), user, id, organization, allowed, successor, now, policy);
      if id !in sessions || !Active(sessions[id], now) {
        return Err(InvalidSession);
      }
      var session := sessions[id];
      if session.user != user {
        return Err(Forbidden);
      }
      if !allowed || successor in tokens {
        return Err(Aborted);
      }
      sessions := sessions[id := session.(organization := organization)];
      DeleteRefreshTokensBySession(id);
      var expiresAt := now + policy.refreshTokenTTL;
      if expiresAt > session.expiresAt {
        expiresAt := session.expiresAt;
      }
      tokens := tokens[successor := RefreshToken(id, organization, now, expiresAt, None)];
      outcome := Ok(Grant(id, successor));
    }

    method DeleteRefreshTokensBySession(id: SessionId)
      modifies this
      ensures Db() == DeleteTokens(old(Db()), TokensOf(old(Db()), {id}))
    {
      tokens := map h | h in tokens && tokens[h].session != id :: tokens[h];
    }

    method RefreshSession(hash: TokenHash, allowed: bool, marked: bool, stored: bool, successor: TokenHash, now: int,
                          policy: SessionPolicy)
      returns (outcome: Outcome)
      modifies this
      ensures (Db(), outcome) == Refreshed(old(Db()), hash, allowed, marked, stored, successor, now, policy)
      ensures outcome.Ok? <==> MayRefresh(old(Db()), hash, allowed, successor, now, policy)
      ensures outcome.Ok? ==>
        if KeepsToken(old(tokens)[hash], now, policy.rotation)
        then Db() == old(Db()) && outcome.value.refreshToken == hash
        else Rotated(old(Db()), Db(), hash, successor, now, policy) && outcome.value.refreshToken == successor
    {
      hide MayRefresh, Rotated, RevokedRows;
      RefreshIs(Db(), hash, allowed, marked, stored, successor, now, policy);
      if hash !in tokens {
        return Err(InvalidRefreshToken);
      }
      var token := tokens[hash];
      if token.consumedAt.Some? {
        var error := RevokeReusedRefreshToken(token, now, marked, stored);
        return Err(error);
      }
      if token.expiresAt < now || token.session !in sessions {
        return Err(InvalidRefreshToken);
      }
      var session := sessions[token.session];
      if session.expiresAt < now || session.revokedAt.Some? {
        return Err(InvalidRefreshToken);
      }
      if !allowed {
        return Err(Aborted);
      }
      var granted := hash;
      if ShouldRotate(token, now, policy.rotation) {
        if successor in tokens {
          return Err(Aborted);
        }
        tokens := tokens[hash := token.(consumedAt := Some(now))];
        granted := successor;
        var expiresAt := now + policy.refreshTokenTTL;
        if expiresAt > session.expiresAt {
          expiresAt := session.expiresAt;
        }
        tokens := tokens[successor := RefreshToken(token.session, token.organization, now, expiresAt, None)];
      }
      outcome := Ok(Grant(token.session, granted));
    }

    method RevokeReusedRefreshToken(token: RefreshToken, observedAt: int, marked: bool, stored: bool)
      returns (error: SessionError)
      modifies this
      ensures (Db(), error) == ReuseTx(old(Db()), token.session, observedAt, marked, stored)
    {
      if token.session !in sessions {
        return SessionNotFound;
      }
      if !stored {
        return Aborted;
      }
      sessions := sessions[token.session := sessions[token.session].(revokedAt := Some(observedAt))];
      assert Db() == Revoke(old(Db()), {token.session}, observedAt);
      error := RefreshTokenReuse(marked);
    }

    method Logout(hash: TokenHash, clock: int, stored: bool)
      modifies this
      ensures Db() == LoggedOut(old(Db()), hash, clock, stored)
      ensures if stored && hash in old(tokens) && old(tokens)[hash].session in old(sessions)
        then tokens == old(tokens) && RevokedRows(old(Db()), Db(), iset{old(tokens)[hash].session}, clock)
        else Db() == old(Db())
    {
      hide RevokedRows, TokensGone, OpenOf, OthersOf;
      RevocationsAre(Db(), 0, 0, hash, clock);
      if stored && hash in tokens && tokens[hash].session in sessions {
        var id := tokens[hash].session;
        sessions := sessions[id := sessions[id].(revokedAt := Some(clock))];
        assert Db() == Revoke(old(Db()), {id}, clock);
      }
    }

    method RevokeAllSessions(user: UserId, clock: int, stored: bool)
      modifies this
      ensures Db() == AllRevoked(old(Db()), user, clock, stored)
      ensures tokens == old(tokens)
      ensures if !stored then Db() == old(Db())
        else RevokedRows(old(Db()), Db(), OpenOf(old(Db()), user), clock)
    {
      hide RevokedRows, TokensGone, OpenOf, OthersOf;
      RevocationsAre(Db(), user, 0, 0, clock);
      if stored {
        sessions := map sid | sid in sessions ::
          if sessions[sid].user == user && sessions[sid].revokedAt.None?
          then sessions[sid].(revokedAt := Some(clock)) else sessions[sid];
      }
    }

    method RevokeUserSession(user: UserId, id: SessionId, now: int, stored: bool)
      modifies this
      ensures Db() == OneRevoked(old(Db()), user, id, now, stored)
      ensures if stored && id in old(sessions) && old(sessions)[id].user == user
        then RevokedRows(old(Db()), Db(), iset{id}, now) && TokensGone(old(Db()), Db(), iset{id})
        else Db() == old(Db())
    {
      hide RevokedRows, TokensGone, OpenOf, OthersOf;
      RevocationsAre(Db(), user, id, 0, now);
      if stored && id in sessions && sessions[id].user == user {
        sessions := sessions[id := sessions[id].(revokedAt := Some(now))];
        DeleteRefreshTokensBySession(id);
      }
    }

    method RevokeOtherUserSessions(user: UserId, keep: SessionId, now: int, stored: bool)
      modifies this
      ensures Db() == OthersRevoked(old(Db()), user, keep, now, stored)
      ensures if !stored then Db() == old(Db())
        else
          && RevokedRows(old(Db()), Db(), OpenOf(old(Db()), user) - iset{keep}, now)
          && TokensGone(old(Db()), Db(), OthersOf(old(Db()), user, keep))
    {
      hide RevokedRows, TokensGone, OpenOf, OthersOf, OthersRevoked;
      RevocationsAre(Db(), user, keep, 0, now);
      if stored {
        var before := sessions;
        ghost var done := OthersRevoked(Db(), user, keep, now, true);
        OthersRows(Db(), user, keep, now);
        sessions := map sid | sid in sessions ::
          if sessions[sid].user == user && sid != keep && sessions[sid].revokedAt.None?
          then sessions[sid].(revokedAt := Some(now)) else sessions[sid];
        assert sessions == done.sessions;
        tokens := map h | h in tokens &&
          !(tokens[h].session in before && before[tokens[h].session].user == user && tokens[h].session != keep)
          :: tokens[h];
        assert tokens == done.tokens;
      }
    }
  }

  // Runs

  datatype Op =
    | Create(id: SessionId, hash: TokenHash, user: UserId, organization: OrganizationId, allowed: bool, now: int,
             databaseNow: int, policy: SessionPolicy)
    | Switch(user: UserId, id: SessionId, organization: OrganizationId, allowed: bool, successor: TokenHash, now: int,
             policy: SessionPolicy)
    | Refresh(hash: TokenHash, allowed: bool, marked: bool, stored: bool, successor: TokenHash, now: int,
              policy: SessionPolicy)
    | Logout(hash: TokenHash, clock: int, stored: bool)
    | RevokeAll(user: UserId, clock: int, stored: bool)
    | RevokeOne(user: UserId, id: SessionId, now: int, stored: bool)
    | RevokeOthers(user: UserId, keep: SessionId, now: int, stored: bool)
    // the cleanup jobs, and the deletions that other services make
    | RemoveSession(id: SessionId)
    | RemoveUnconsumedToken(hash: TokenHash)

  /** A policy that the runtime settings accept: see SettingsPolicy.ValidSession. Nothing is asked
      of a policy read later. */
  predicate OpAdmissible(op: Op) {
    op.Create? ==> op.policy.refreshTokenTTL <= op.policy.sessionTTL
  }

  /** The tables, every session identifier ever stored, and the sessions reported for reuse. */
  datatype History = History(db: Tables, used: set<SessionId>, reported: set<SessionId>)

  const START := History(EMPTY_TABLES, {}, {})

  function Apply(s: History, op: Op): (History, Option<Outcome>) {
    match op
    case Create(id, hash, user, organization, allowed, now, databaseNow, policy) =>
      if id in s.used then (s, None) else
      var (db, outcome) := Created(s.db, id, hash, user, organization, allowed, now, databaseNow, policy);
      (s.(db := db, used := if outcome.Ok? then s.used + {id} else s.used), Some(outcome))
    case Switch(user, id, organization, allowed, successor, now, policy) =>
      var (db, outcome) := Switched(s.db, user, id, organization, allowed, successor, now, policy);
      (s.(db := db), Some(outcome))
    case Refresh(hash, allowed, marked, stored, successor, now, policy) =>
      var (db, outcome) := Refreshed(s.db, hash, allowed, marked, stored, successor, now, policy);
      (s.(db := db,
          reported := if ReportsReuse(outcome) then s.reported + {s.db.tokens[hash].session} else s.reported),
       Some(outcome))
    case Logout(hash, clock, stored) => (s.(db := LoggedOut(s.db, hash, clock, stored)), None)
    case RevokeAll(user, clock, stored) => (s.(db := AllRevoked(s.db, user, clock, stored)), None)
    case RevokeOne(user, id, now, stored) => (s.(db := OneRevoked(s.db, user, id, now, stored)), None)
    case RevokeOthers(user, keep, now, stored) => (s.(db := OthersRevoked(s.db, user, keep, now, stored)), None)
    case RemoveSession(id) => (s.(db := DeleteSession(s.db, id)), None)
    case RemoveUnconsumedToken(hash) =>
      if hash in s.db.tokens && s.db.tokens[hash].consumedAt.None? then (s.(db := DeleteTokens(s.db, {hash})), None)
      else (s, None)
  }

  function Run(s: History, ops: seq<Op>): History
    decreases |ops|
  {
    if ops == [] then s else Run(Apply(s, ops[0]).0, ops[1..])
  }

  /** Every access token granted during a run. */
  function Grants(s: History, ops: seq<Op>): set<SessionId>
    decreases |ops|
  {
    if ops == [] then {} else
    var (next, outcome) := Apply(s, ops[0]);
    (if outcome.Some? && outcome.value.Ok? then {outcome.value.value.session} else {}) + Grants(next, ops[1..])
  }

  // Invariants

  ghost predicate Dead(db: Tables, id: SessionId) {
    id in db.sessions ==> db.sessions[id].revokedAt.Some?
  }

  ghost predicate Inv(s: History) {
    && TablesOk(s.db)
    && s.db.sessions.Keys <= s.used
    && s.reported <= s.used
    && forall id <- s.reported :: Dead(s.db, id)
  }

  lemma CreatedOk(db: Tables, op: Op)
    requires TablesOk(db) && op.Create? && OpAdmissible(op)
    ensures TablesOk(Created(db, op.id, op.hash, op.user, op.organization, op.allowed, op.now, op.databaseNow,
                             op.policy).0)
  {
    if op.id !in db.sessions {
      OpenSessionOk(db, op.id, op.hash, op.user, op.organization, op.now, op.databaseNow, op.policy);
      hide OnlyNow, OneUnconsumedToken, TokensWithinSessions, OpenSession;
      OnlyNowKeeps(db, OpenSession(db, op.id, op.hash, op.user, op.organization, op.now, op.databaseNow, op.policy),
                   op.hash, op.id);
    }
  }

  lemma SwitchedOk(db: Tables, op: Op)
    requires TablesOk(db) && op.Switch?
    ensures TablesOk(Switched(db, op.user, op.id, op.organization, op.allowed, op.successor, op.now, op.policy).0)
  {
    if op.id in db.sessions {
      var doomed := TokensOf(db, {op.id});
      SwitchOrganizationOk(db, op.id, op.organization, doomed, op.successor, op.now, op.policy);
      var next := SwitchOrganization(db, op.id, op.organization, doomed, op.successor, op.now, op.policy);
      assert OnlyNow(db, next, op.successor, op.id);
      hide OnlyNow, OneUnconsumedToken, TokensWithinSessions, SwitchOrganization;
      OnlyNowKeeps(db, next, op.successor, op.id);
    }
  }

  lemma RefreshedOk(db: Tables, op: Op)
    requires TablesOk(db) && op.Refresh?
    ensures TablesOk(Refreshed(db, op.hash, op.allowed, op.marked, op.stored, op.successor, op.now, op.policy).0)
  {
    if op.hash in db.tokens {
      var token := db.tokens[op.hash];
      RevokedOk(db, {token.session}, op.now, {});
      if token.consumedAt.None? && op.successor !in db.tokens {
        RotateTokenOk(db, op.hash, op.successor, op.now, op.policy, db.sessions[token.session].expiresAt);
        var next := RotateToken(db, op.hash, op.successor, op.now, op.policy, db.sessions[token.session].expiresAt);
        hide OnlyNow, OneUnconsumedToken, TokensWithinSessions, RotateToken;
        OnlyNowKeeps(db, next, op.successor, token.session);
      }
    }
  }

  lemma RevokedOk(db: Tables, ids: set<SessionId>, at: int, hashes: set<TokenHash>)
    requires TablesOk(db)
    ensures TablesOk(DeleteTokens(Revoke(db, ids, at), hashes)) && (hashes == {} ==> TablesOk(Revoke(db, ids, at)))
  {
    RemovedOk(db, ids, at, hashes);
    NoneAddedKeeps(db, DeleteTokens(Revoke(db, ids, at), hashes));
    if hashes == {} {
      assert DeleteTokens(Revoke(db, ids, at), {}) == Revoke(db, ids, at);
    }
  }

  lemma RemovalsOk(s: History, op: Op)
    requires TablesOk(s.db) && !op.Create? && !op.Switch? && !op.Refresh?
    ensures TablesOk(Apply(s, op).0.db)
  {
    var db := s.db;
    match op
    case Logout(hash, clock, _) => if hash in db.tokens { RevokedOk(db, {db.tokens[hash].session}, clock, {}); }
    case RevokeAll(user, clock, _) => RevokedOk(db, UnrevokedSessionsOf(db, user), clock, {});
    case RevokeOne(user, id, now, _) => RevokedOk(db, {id}, now, TokensOf(db, {id}));
    case RevokeOthers(user, keep, now, _) =>
      RevokedOk(db, UnrevokedSessionsOf(db, user) - {keep}, now, TokensOf(db, SessionsOf(db, user) - {keep}));
    case RemoveSession(id) =>
      DeletedOk(db, id);
      NoneAddedKeeps(db, DeleteSession(db, id));
    case RemoveUnconsumedToken(hash) =>
      assert Revoke(db, {}, 0) == db;
      RevokedOk(db, {}, 0, {hash});
  }

  lemma ApplyOk(s: History, op: Op)
    requires TablesOk(s.db) && OpAdmissible(op)
    ensures TablesOk(Apply(s, op).0.db)
  {
    if !op.Create? && !op.Switch? && !op.Refresh? {
      RemovalsOk(s, op);
    } else {
      hide TablesOk, Created, Switched, Refreshed;
      match op
      case Create(_, _, _, _, _, _, _, _) => CreatedOk(s.db, op);
      case Switch(_, _, _, _, _, _, _) => SwitchedOk(s.db, op);
      case Refresh(_, _, _, _, _, _, _) => RefreshedOk(s.db, op);
    }
  }

  lemma ApplyDead(s: History, op: Op, id: SessionId)
    requires Dead(s.db, id) && id in s.used
    ensures Dead(Apply(s, op).0.db, id) && id in Apply(s, op).0.used
    ensures var outcome := Apply(s, op).1; outcome.Some? && outcome.value.Ok? ==> outcome.value.value.session != id
  {
  }

  lemma ApplyKept(s: History, op: Op)
    requires Inv(s) && OpAdmissible(op)
    ensures Inv(Apply(s, op).0)
  {
    ApplyOk(s, op);
    forall id <- s.reported ensures Dead(Apply(s, op).0.db, id) {
      ApplyDead(s, op, id);
    }
  }

  lemma {:induction false} RunKept(s: History, ops: seq<Op>)
    requires Inv(s) && forall op <- ops :: OpAdmissible(op)
    ensures Inv(Run(s, ops))
    decreases |ops|
  {
    if ops != [] {
      ApplyKept(s, ops[0]);
      RunKept(Apply(s, ops[0]).0, ops[1..]);
    }
  }

  /** In every reachable state a session has at most one unconsumed refresh token, and no
      refresh token outlives its session. */
  lemma RefreshTokensBounded(ops: seq<Op>)
    requires forall op <- ops :: OpAdmissible(op)
    ensures OneUnconsumedToken(Run(START, ops).db) && TokensWithinSessions(Run(START, ops).db)
  {
    RunKept(START, ops);
  }

  lemma {:induction false} DeadGrantsNothing(s: History, ops: seq<Op>, id: SessionId)
    requires Dead(s.db, id) && id in s.used
    ensures id !in Grants(s, ops) && Dead(Run(s, ops).db, id)
    decreases |ops|
  {
    if ops != [] {
      var (next, outcome) := Apply(s, ops[0]);
      ApplyDead(s, ops[0], id);
      DeadGrantsNothing(next, ops[1..], id);
    }
  }

  /** Once a stored consumed token has been reported as reuse, its session never yields
      another access token, whether or not the marker write succeeded (`marked`). */
  lemma ReportedReuseIsFinal(before: seq<Op>, hash: TokenHash, allowed: bool, marked: bool, stored: bool,
                             successor: TokenHash, now: int, policy: SessionPolicy, after: seq<Op>)
    requires forall op <- before :: OpAdmissible(op)
    requires ReportsReuse(Refreshed(Run(START, before).db, hash, allowed, marked, stored, successor, now, policy).1)
    ensures var s := Run(START, before);
            hash in s.db.tokens && s.db.tokens[hash].consumedAt.Some? &&
            s.db.tokens[hash].session !in
              Grants(Apply(s, Refresh(hash, allowed, marked, stored, successor, now, policy)).0, after)
  {
    var s := Run(START, before);
    RunKept(START, before);
    var next := Apply(s, Refresh(hash, allowed, marked, stored, successor, now, policy)).0;
    DeadGrantsNothing(next, after, s.db.tokens[hash].session);
  }

  /** Reuse is reported exactly when a stored token was consumed before, its session is
      still stored and the revoking transaction commits. */
  lemma ReuseReportedIff(db: Tables, hash: TokenHash, allowed: bool, marked: bool, stored: bool, successor: TokenHash,
                         now: int, policy: SessionPolicy)
    ensures ReportsReuse(Refreshed(db, hash, allowed, marked, stored, successor, now, policy).1) <==>
      (hash in db.tokens && db.tokens[hash].consumedAt.Some? && db.tokens[hash].session in db.sessions && stored)
  {
  }
}
