/** The sessions and refresh_tokens tables, and the statements that
    internal/session/service.go runs on them. */
module SessionData {
  import opened Wrappers

  type UserId = nat
  type SessionId = nat
  type OrganizationId = nat
  type TokenHash = nat

  /** Durations and instants are integers on one time line. */
  datatype SessionPolicy = SessionPolicy(sessionTTL: int, refreshTokenTTL: int, rotation: int)

  datatype Session = Session(user: UserId, organization: OrganizationId, expiresAt: int, revokedAt: Option<int>)

  datatype RefreshToken =
    RefreshToken(session: SessionId, organization: OrganizationId, createdAt: int, expiresAt: int,
                 consumedAt: Option<int>)

  datatype Tables = Tables(sessions: map<SessionId, Session>, tokens: map<TokenHash, RefreshToken>)

  const EMPTY_TABLES := Tables(map[], map[])

  /** A session row that GetActiveSessionByID returns. */
  predicate Active(session: Session, now: int) {
    session.revokedAt.None? && now < session.expiresAt
  }

  predicate ShouldRotate(token: RefreshToken, now: int, rotation: int) {
    if rotation < 0 then true
    else if rotation == 0 then false
    else now - token.createdAt >= rotation
  }

  /** An expiry moved back to `limit` when it lies after it. */
  function Clamp(expiresAt: int, limit: int): int {
    if expiresAt > limit then limit else expiresAt
  }

  function TokensOf(db: Tables, ids: set<SessionId>): set<TokenHash> {
    set h | h in db.tokens && db.tokens[h].session in ids
  }

  function SessionsOf(db: Tables, user: UserId): set<SessionId> {
    set sid | sid in db.sessions && db.sessions[sid].user == user
  }

  function UnrevokedSessionsOf(db: Tables, user: UserId): set<SessionId> {
    set sid | sid in db.sessions && db.sessions[sid].user == user && db.sessions[sid].revokedAt.None?
  }

  function ActiveSessionsOf(db: Tables, user: UserId, now: int): set<SessionId> {
    set sid | sid in db.sessions && db.sessions[sid].user == user && Active(db.sessions[sid], now)
  }

  // Statements

  function Revoke(db: Tables, ids: set<SessionId>, at: int): Tables {
    db.(sessions := map sid | sid in db.sessions ::
      if sid in ids then db.sessions[sid].(revokedAt := Some(at)) else db.sessions[sid])
  }

  function DeleteTokens(db: Tables, hashes: set<TokenHash>): Tables {
    db.(tokens := map h | h in db.tokens && h !in hashes :: db.tokens[h])
  }

  /** Deletes a session; its refresh tokens go with it. */
  function DeleteSession(db: Tables, id: SessionId): Tables {
    Tables(map sid | sid in db.sessions && sid != id :: db.sessions[sid],
           map h | h in db.tokens && db.tokens[h].session != id :: db.tokens[h])
  }

  function Consume(db: Tables, hash: TokenHash, at: int): Tables
    requires hash in db.tokens
  {
    db.(tokens := db.tokens[hash := db.tokens[hash].(consumedAt := Some(at))])
  }

  function Insert(db: Tables, hash: TokenHash, token: RefreshToken): Tables {
    db.(tokens := db.tokens[hash := token])
  }

  // The writes of whole transactions

  /** A new session and its first refresh token, whose created_at is the database clock. */
  function OpenSession(db: Tables, id: SessionId, hash: TokenHash, user: UserId, organization: OrganizationId, now: int,
                       databaseNow: int, policy: SessionPolicy): Tables {
    Tables(db.sessions[id := Session(user, organization, now + policy.sessionTTL, None)],
           db.tokens[hash := RefreshToken(id, organization, databaseNow, now + policy.refreshTokenTTL, None)])
  }

  /** The used token becomes a tombstone and a successor is stored. */
  function RotateToken(db: Tables, hash: TokenHash, successor: TokenHash, now: int, policy: SessionPolicy,
                       sessionExpiresAt: int): Tables
    requires hash in db.tokens
  {
    var token := db.tokens[hash];
    Insert(Consume(db, hash, now), successor,
           RefreshToken(token.session, token.organization, now,
                        Clamp(now + policy.refreshTokenTTL, sessionExpiresAt), None))
  }

  /** The session moves to an organization; its old tokens give way to a new one. */
  function SwitchOrganization(db: Tables, id: SessionId, organization: OrganizationId, doomed: set<TokenHash>,
                              successor: TokenHash, now: int, policy: SessionPolicy): Tables
    requires id in db.sessions
  {
    var session := db.sessions[id];
    var moved := db.(sessions := db.sessions[id := session.(organization := organization)]);
    Insert(DeleteTokens(moved, doomed), successor,
           RefreshToken(id, organization, now, Clamp(now + policy.refreshTokenTTL, session.expiresAt), None))
  }

  // What the tables keep

  predicate Unconsumed(db: Tables, hash: TokenHash, id: SessionId) {
    hash in db.tokens && db.tokens[hash].session == id && db.tokens[hash].consumedAt.None?
  }

  ghost predicate OneUnconsumedToken(db: Tables) {
    forall h, g, id :: Unconsumed(db, h, id) && Unconsumed(db, g, id) ==> h == g
  }

  ghost predicate TokensWithinSessions(db: Tables) {
    forall h <- db.tokens ::
      && db.tokens[h].session in db.sessions
      && db.tokens[h].expiresAt <= db.sessions[db.tokens[h].session].expiresAt
  }

  ghost predicate TablesOk(db: Tables) {
    OneUnconsumedToken(db) && TokensWithinSessions(db)
  }

  /** The unconsumed tokens of `next` are among those of `db`. */
  ghost predicate NoneAdded(db: Tables, next: Tables) {
    forall h, id :: Unconsumed(next, h, id) ==> Unconsumed(db, h, id)
  }

  /** The session's only unconsumed token in `next` is `hash`; no other session has gained one. */
  ghost predicate OnlyNow(db: Tables, next: Tables, hash: TokenHash, id: SessionId) {
    forall h, i :: Unconsumed(next, h, i) ==> if i == id then h == hash else Unconsumed(db, h, i)
  }

  lemma NoneAddedKeeps(db: Tables, next: Tables)
    requires OneUnconsumedToken(db) && NoneAdded(db, next)
    ensures OneUnconsumedToken(next)
  {
    forall h, g, id | Unconsumed(next, h, id) && Unconsumed(next, g, id) ensures h == g {
      assert Unconsumed(db, h, id) && Unconsumed(db, g, id);
    }
  }

  lemma OnlyNowKeeps(db: Tables, next: Tables, hash: TokenHash, id: SessionId)
    requires OneUnconsumedToken(db) && OnlyNow(db, next, hash, id)
    ensures OneUnconsumedToken(next)
  {
    forall h, g, i | Unconsumed(next, h, i) && Unconsumed(next, g, i) ensures h == g {
      if i != id {
        assert Unconsumed(db, h, i) && Unconsumed(db, g, i);
      }
    }
  }

  lemma OpenSessionOk(db: Tables, id: SessionId, hash: TokenHash, user: UserId, organization: OrganizationId, now: int,
                      databaseNow: int, policy: SessionPolicy)
    requires id !in db.sessions && forall h <- db.tokens :: db.tokens[h].session != id
    ensures var next := OpenSession(db, id, hash, user, organization, now, databaseNow, policy);
            && OnlyNow(db, next, hash, id)
            && (TokensWithinSessions(db) && policy.refreshTokenTTL <= policy.sessionTTL ==> TokensWithinSessions(next))
  {
  }

  lemma RotateTokenOk(db: Tables, hash: TokenHash, successor: TokenHash, now: int, policy: SessionPolicy,
                      sessionExpiresAt: int)
    requires hash in db.tokens && db.tokens[hash].consumedAt.None? && successor !in db.tokens
    ensures var id := db.tokens[hash].session;
            var next := RotateToken(db, hash, successor, now, policy, sessionExpiresAt);
            && (OneUnconsumedToken(db) ==> OnlyNow(db, next, successor, id))
            && (TokensWithinSessions(db) && sessionExpiresAt <= db.sessions[id].expiresAt ==>
                TokensWithinSessions(next))
  {
    var id := db.tokens[hash].session;
    var next := RotateToken(db, hash, successor, now, policy, sessionExpiresAt);
    assert Unconsumed(db, hash, id);
    if OneUnconsumedToken(db) {
      forall h, i | Unconsumed(next, h, i) ensures if i == id then h == successor else Unconsumed(db, h, i) {
        if h != successor {
          assert Unconsumed(db, h, i);
        }
      }
    }
  }

  lemma SwitchOrganizationOk(db: Tables, id: SessionId, organization: OrganizationId, doomed: set<TokenHash>,
                             successor: TokenHash, now: int, policy: SessionPolicy)
    requires id in db.sessions
    ensures var next := SwitchOrganization(db, id, organization, doomed, successor, now, policy);
            && ((forall h :: Unconsumed(db, h, id) ==> h in doomed) ==> OnlyNow(db, next, successor, id))
            && (TokensWithinSessions(db) ==> TokensWithinSessions(next))
  {
    var next := SwitchOrganization(db, id, organization, doomed, successor, now, policy);
    if forall h :: Unconsumed(db, h, id) ==> h in doomed {
      forall h, i | Unconsumed(next, h, i) ensures if i == id then h == successor else Unconsumed(db, h, i) {
        if h != successor {
          assert Unconsumed(db, h, i);
        }
      }
    }
  }

  /** Revoking sessions and deleting tokens cannot break the bounds. */
  lemma RemovedOk(db: Tables, ids: set<SessionId>, at: int, hashes: set<TokenHash>)
    ensures var next := DeleteTokens(Revoke(db, ids, at), hashes);
            NoneAdded(db, next) && (TokensWithinSessions(db) ==> TokensWithinSessions(next))
  {
  }

  lemma DeletedOk(db: Tables, id: SessionId)
    ensures var next := DeleteSession(db, id);
            NoneAdded(db, next) && (TokensWithinSessions(db) ==> TokensWithinSessions(next))
  {
  }
}
