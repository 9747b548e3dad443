/** Session transactions of internal/session/service.go, one step per lock, read and
    commit, interleaved in any order under READ COMMITTED.

    A transaction's writes become visible when it commits; a marker write is visible at
    once and survives a rollback. FOR KEY SHARE on a user row conflicts only with
    FOR UPDATE on it. Checks on tables that are not modelled (membership, roles, disabled
    users, allowlist, passkeys), failing statements and crashes are all `Abort`. */
module SessionFencing {
  import opened Wrappers
  import opened SessionData

  type TxId = nat

  datatype Cause =
    | Reuse(session: SessionId, observedAt: int)
    | Logout(hash: TokenHash)
    | RevokeOne(user: UserId, session: SessionId, now: int)
    | RevokeOthers(user: UserId, keep: SessionId, now: int)
    | RevokeAll(user: UserId)

  datatype Tx =
    | RefreshBegun(hash: TokenHash, now: int, policy: SessionPolicy)
      // the token and its session were read without a lock
    | RefreshRead(hash: TokenHash, now: int, policy: SessionPolicy, user: UserId)
      // holds the user row FOR KEY SHARE
    | RefreshShared(hash: TokenHash, now: int, policy: SessionPolicy, user: UserId)
      // also holds the token row FOR UPDATE, and has read it again
    | RefreshHeld(hash: TokenHash, now: int, policy: SessionPolicy, user: UserId, token: RefreshToken)
      // has read the session again
    | RefreshChecked(hash: TokenHash, now: int, policy: SessionPolicy, user: UserId, token: RefreshToken,
                     session: Session)
    | SwitchBegun(user: UserId, id: SessionId, organization: OrganizationId, now: int, policy: SessionPolicy)
    | SwitchShared(user: UserId, id: SessionId, organization: OrganizationId, now: int, policy: SessionPolicy)
    | SwitchChecked(user: UserId, id: SessionId, organization: OrganizationId, now: int, policy: SessionPolicy)
      // the DELETE statement has chosen its rows
    | SwitchDeleting(user: UserId, id: SessionId, organization: OrganizationId, now: int, policy: SessionPolicy,
                     doomed: set<TokenHash>)
    | CreateBegun(user: UserId, organization: OrganizationId, now: int, policy: SessionPolicy)
    | CreateShared(user: UserId, organization: OrganizationId, now: int, policy: SessionPolicy)
    | RevokeBegun(cause: Cause)
      // the user is known
    | RevokeRead(cause: Cause, user: UserId)
      // holds the user row FOR UPDATE
    | RevokeLocked(cause: Cause, user: UserId)
      // has read the rows again and then the clock
    | RevokeTimed(cause: Cause, user: UserId, markerAt: int, targets: set<SessionId>)
    | RevokeMarked(cause: Cause, user: UserId, markerAt: int, targets: set<SessionId>, markerOk: bool)

  /** An access token handed to a client. */
  datatype Issued = Issued(session: SessionId, user: UserId, iat: int)

  /** A committed revocation of one session whose marker was written. */
  datatype SessionFence = SessionFence(session: SessionId, at: int)

  /** A committed revocation of all sessions of a user, with the tokens handed out before it. */
  datatype UserFence = UserFence(user: UserId, at: int, before: set<Issued>, sessions: set<SessionId>)

  /** `owner`, `family`, `issued`, `revoked`, `fences` and `userFences` record the run;
      no step reads them except to keep identifiers and hashes fresh. */
  datatype Sys = Sys(
    clock: int,
    db: Tables,
    txs: map<TxId, Tx>,
    markers: map<SessionId, int>,
    userMarkers: map<UserId, int>,
    owner: map<SessionId, UserId>,
    family: map<TokenHash, SessionId>,
    issued: seq<Issued>,
    revoked: set<SessionId>,
    fences: set<SessionFence>,
    userFences: set<UserFence>)

  function Init(clock: int): Sys {
    Sys(clock, EMPTY_TABLES, map[], map[], map[], map[], map[], [], {}, {}, {})
  }

  /** What an open transaction does next. */
  datatype Op =
    | Read
    | LockShared
    | LockRow
    | Check
    | Delete
    | CommitRefresh(successor: TokenHash)
    | CommitSwitch(successor: TokenHash)
    | CommitCreate(id: SessionId, hash: TokenHash)
    | LockExclusive
    | ReadClock
    | WriteMarkers(ok: bool, landed: set<SessionId>)
    | CommitRevoke
    | Abort

  datatype Action =
    | Tick(elapsed: nat)
    | BeginRefresh(t: TxId, hash: TokenHash, now: int, policy: SessionPolicy)
    | BeginSwitch(t: TxId, user: UserId, id: SessionId, organization: OrganizationId, now: int, policy: SessionPolicy)
    | BeginCreate(t: TxId, user: UserId, organization: OrganizationId, now: int, policy: SessionPolicy)
    | BeginRevoke(t: TxId, cause: Cause)
    | Step(t: TxId, op: Op)
    | RemoveSession(id: SessionId)
    | RemoveToken(hash: TokenHash)

  // Locks

  /** The user row a transaction holds FOR KEY SHARE. */
  function SharedLock(tx: Tx): Option<UserId> {
    if tx.RefreshShared? || tx.RefreshHeld? || tx.RefreshChecked? || tx.SwitchShared? || tx.SwitchChecked?
       || tx.SwitchDeleting? || tx.CreateShared?
    then Some(tx.user) else None
  }

  /** The user row a transaction holds FOR UPDATE. */
  function ExclusiveLock(tx: Tx): Option<UserId> {
    if tx.RevokeLocked? || tx.RevokeTimed? || tx.RevokeMarked? then Some(tx.user) else None
  }

  predicate HoldsShared(tx: Tx, user: UserId) {
    SharedLock(tx) == Some(user)
  }

  predicate HoldsExclusive(tx: Tx, user: UserId) {
    ExclusiveLock(tx) == Some(user)
  }

  predicate HoldsRow(tx: Tx, hash: TokenHash) {
    (tx.RefreshHeld? || tx.RefreshChecked?) && tx.hash == hash
  }

  predicate SharedAvailable(s: Sys, user: UserId) {
    forall t <- s.txs :: !HoldsExclusive(s.txs[t], user)
  }

  predicate ExclusiveAvailable(s: Sys, user: UserId) {
    forall t <- s.txs :: !HoldsExclusive(s.txs[t], user) && !HoldsShared(s.txs[t], user)
  }

  predicate RowAvailable(s: Sys, hash: TokenHash) {
    forall t <- s.txs :: !HoldsRow(s.txs[t], hash)
  }

  /** No transaction but `t` holds one of the rows. */
  predicate RowsAvailableTo(s: Sys, t: TxId, hashes: set<TokenHash>) {
    forall o <- s.txs :: o != t && (s.txs[o].RefreshHeld? || s.txs[o].RefreshChecked?) ==> s.txs[o].hash !in hashes
  }

  predicate SessionRowAvailable(s: Sys, id: SessionId) {
    forall t <- s.txs :: s.txs[t].SwitchDeleting? ==> s.txs[t].id != id
  }

  // Steps

  function Put(s: Sys, t: TxId, tx: Tx): Sys {
    s.(txs := s.txs[t := tx])
  }

  function End(s: Sys, t: TxId): Sys {
    s.(txs := s.txs - {t})
  }

  /** The caller's `now` is not ahead of the clock. */
  predicate CauseTimely(cause: Cause, clock: int) {
    match cause
    case Reuse(_, observedAt) => observedAt <= clock
    case RevokeOne(_, _, now) => now <= clock
    case RevokeOthers(_, _, now) => now <= clock
    case Logout(_) => true
    case RevokeAll(_) => true
  }

  function Max(a: int, b: int): int { if a >= b then a else b }

  /** The outcome of reading a refresh token by hash: reuse, refusal, or the row. */
  datatype TokenRead = Reused(session: SessionId) | Refused | Usable(token: RefreshToken)

  function ReadToken(db: Tables, hash: TokenHash, now: int): TokenRead {
    if hash !in db.tokens then Refused
    else if db.tokens[hash].consumedAt.Some? then Reused(db.tokens[hash].session)
    else if db.tokens[hash].expiresAt < now then Refused
    else Usable(db.tokens[hash])
  }

  /** The user that a revocation concerns, read without a lock; None ends the transaction. */
  function ReadCause(db: Tables, cause: Cause): Option<UserId> {
    match cause
    case Reuse(id, _) => if id in db.sessions then Some(db.sessions[id].user) else None
    case Logout(hash) =>
      if hash in db.tokens && db.tokens[hash].session in db.sessions
      then Some(db.sessions[db.tokens[hash].session].user) else None
    case RevokeOne(user, id, _) => if id in db.sessions && db.sessions[id].user == user then Some(user) else None
    case RevokeOthers(user, _, _) => Some(user)
    case RevokeAll(user) => Some(user)
  }

  /** Nothing but the open transactions differs. */
  predicate OnlyTxs(s: Sys, s': Sys) {
    s' == s.(txs := s'.txs)
  }

  function ReadStep(s: Sys, t: TxId): (s': Sys)
    requires t in s.txs
    ensures OnlyTxs(s, s')
  {
    match s.txs[t]
    case RefreshBegun(hash, now, policy) =>
      (match ReadToken(s.db, hash, now)
       case Refused => End(s, t)
       // the refresh rolls back and a revoking transaction takes its place
       case Reused(id) => Put(s, t, RevokeBegun(Reuse(id, now)))
       case Usable(token) =>
         if token.session !in s.db.sessions then End(s, t)
         else Put(s, t, RefreshRead(hash, now, policy, s.db.sessions[token.session].user)))
    case RevokeBegun(cause) =>
      var user := ReadCause(s.db, cause);
      if user.None? then End(s, t) else Put(s, t, RevokeRead(cause, user.value))
    case _ => s
  }

  function LockSharedStep(s: Sys, t: TxId): (s': Sys)
    requires t in s.txs
    ensures OnlyTxs(s, s')
  {
    match s.txs[t]
    case RefreshRead(hash, now, policy, user) =>
      if SharedAvailable(s, user) then Put(s, t, RefreshShared(hash, now, policy, user)) else s
    case SwitchBegun(user, id, organization, now, policy) =>
      if SharedAvailable(s, user) then Put(s, t, SwitchShared(user, id, organization, now, policy)) else s
    case CreateBegun(user, organization, now, policy) =>
      if SharedAvailable(s, user) then Put(s, t, CreateShared(user, organization, now, policy)) else s
    case _ => s
  }

  function LockRowStep(s: Sys, t: TxId): (s': Sys)
    requires t in s.txs
    ensures OnlyTxs(s, s')
  {
    match s.txs[t]
    case RefreshShared(hash, now, policy, user) =>
      if !RowAvailable(s, hash) then s else
      (match ReadToken(s.db, hash, now)
       case Refused => End(s, t)
       case Reused(id) => Put(s, t, RevokeBegun(Reuse(id, now)))
       case Usable(token) => Put(s, t, RefreshHeld(hash, now, policy, user, token)))
    case _ => s
  }

  function CheckStep(s: Sys, t: TxId): (s': Sys)
    requires t in s.txs
    ensures OnlyTxs(s, s')
  {
    match s.txs[t]
    case RefreshHeld(hash, now, policy, user, token) =>
      if token.session !in s.db.sessions then End(s, t)
      else
        var session := s.db.sessions[token.session];
        if session.expiresAt < now || session.revokedAt.Some? then End(s, t)
        else Put(s, t, RefreshChecked(hash, now, policy, user, token, session))
    case SwitchShared(user, id, organization, now, policy) =>
      if id !in s.db.sessions || !Active(s.db.sessions[id], now) || s.db.sessions[id].user != user then End(s, t)
      else Put(s, t, SwitchChecked(user, id, organization, now, policy))
    case _ => s
  }

  function DeleteStep(s: Sys, t: TxId): (s': Sys)
    requires t in s.txs
    ensures OnlyTxs(s, s')
  {
    match s.txs[t]
    case SwitchChecked(user, id, organization, now, policy) =>
      if !SessionRowAvailable(s, id) then s
      else if id !in s.db.sessions || s.db.sessions[id].revokedAt.Some? then End(s, t)
      else Put(s, t, SwitchDeleting(user, id, organization, now, policy, TokensOf(s.db, {id})))
    case _ => s
  }

  predicate RotatesAtCommit(tx: Tx)
    requires tx.RefreshChecked?
  {
    ShouldRotate(tx.token, tx.now, tx.policy.rotation)
  }

  function CommitRefreshStep(s: Sys, t: TxId, successor: TokenHash): Sys
    requires t in s.txs
  {
    match s.txs[t]
    case RefreshChecked(hash, now, policy, user, token, session) =>
      var issued := s.issued + [Issued(token.session, user, now)];
      if !RotatesAtCommit(s.txs[t]) then End(s, t).(issued := issued)
      else if successor in s.family then s
      else if hash !in s.db.tokens || s.db.tokens[hash].consumedAt.Some? || token.session !in s.db.sessions
      then End(s, t)
      else End(s, t).(issued := issued,
                      family := s.family[successor := token.session],
                      db := RotateToken(s.db, hash, successor, now, policy, session.expiresAt))
    case _ => s
  }

  function CommitSwitchStep(s: Sys, t: TxId, successor: TokenHash): Sys
    requires t in s.txs
  {
    match s.txs[t]
    case SwitchDeleting(user, id, organization, now, policy, doomed) =>
      if successor in s.family || !RowsAvailableTo(s, t, doomed) then s
      else if id !in s.db.sessions then End(s, t)
      else End(s, t).(issued := s.issued + [Issued(id, user, now)],
                      family := s.family[successor := id],
                      db := SwitchOrganization(s.db, id, organization, doomed, successor, now, policy))
    case _ => s
  }

  function CommitCreateStep(s: Sys, t: TxId, id: SessionId, hash: TokenHash): Sys
    requires t in s.txs
  {
    match s.txs[t]
    case CreateShared(user, organization, now, policy) =>
      if id in s.owner || hash in s.family then s
      else End(s, t).(issued := s.issued + [Issued(id, user, now)],
                      owner := s.owner[id := user],
                      family := s.family[hash := id],
                      db := OpenSession(s.db, id, hash, user, organization, now, s.clock, policy))
    case _ => s
  }

  function LockExclusiveStep(s: Sys, t: TxId): (s': Sys)
    requires t in s.txs
    ensures OnlyTxs(s, s')
  {
    match s.txs[t]
    case RevokeRead(cause, user) =>
      if ExclusiveAvailable(s, user) then Put(s, t, RevokeLocked(cause, user)) else s
    case _ => s
  }

  /** The reads that follow the exclusive lock, then time.Now(). */
  function ReadClockStep(s: Sys, t: TxId): (s': Sys)
    requires t in s.txs
    ensures OnlyTxs(s, s')
  {
    match s.txs[t]
    case RevokeLocked(cause, user) =>
      (match cause
       case Reuse(id, observedAt) =>
         if id !in s.db.sessions then End(s, t)
         else Put(s, t, RevokeTimed(cause, user, Max(s.clock, observedAt), {id}))
       case Logout(hash) =>
         if hash !in s.db.tokens || s.db.tokens[hash].session !in s.db.sessions then End(s, t)
         else Put(s, t, RevokeTimed(cause, user, s.clock, {s.db.tokens[hash].session}))
       case RevokeOne(u, id, now) =>
         if id !in s.db.sessions || s.db.sessions[id].user != u then End(s, t)
         else Put(s, t, RevokeTimed(cause, user, Max(s.clock, now), {id}))
       case RevokeOthers(u, keep, now) =>
         Put(s, t, RevokeTimed(cause, user, Max(s.clock, now), ActiveSessionsOf(s.db, u, now) - {keep}))
       case RevokeAll(_) =>
         Put(s, t, RevokeTimed(cause, user, s.clock, {})))
    case _ => s
  }

  function Raise<K>(markers: map<K, int>, keys: set<K>, at: int): map<K, int> {
    map k | k in markers.Keys + keys ::
      if k !in keys then markers[k] else if k in markers then Max(markers[k], at) else at
  }

  /** The state after writing the markers of some targets, or the user's marker. */
  function Marks(s: Sys, cause: Cause, user: UserId, markerAt: int, targets: set<SessionId>): Sys {
    if cause.RevokeAll? then s.(userMarkers := Raise(s.userMarkers, {user}, markerAt))
    else s.(markers := Raise(s.markers, targets, markerAt))
  }

  /** The marker writes. A failed one may come after others, or have landed all the same: `landed`
      says where. Only the reuse transaction goes on after a failure. */
  function WriteMarkersStep(s: Sys, t: TxId, ok: bool, landed: set<SessionId>): (s': Sys)
    requires t in s.txs
    ensures s' == s.(txs := s'.txs, markers := s'.markers, userMarkers := s'.userMarkers)
  {
    match s.txs[t]
    case RevokeTimed(cause, user, markerAt, targets) =>
      if ok then Put(Marks(s, cause, user, markerAt, targets), t, RevokeMarked(cause, user, markerAt, targets, true))
      else
        var marked := if landed == {} then s else Marks(s, cause, user, markerAt, targets * landed);
        if cause.Reuse? then Put(marked, t, RevokeMarked(cause, user, markerAt, targets, false)) else End(marked, t)
    case _ => s
  }

  function IssuedTo(s: Sys, user: UserId): set<Issued> {
    set k | k in s.issued && k.user == user
  }

  /** The sessions whose rows the transaction sets revoked_at on. */
  function RevokedBy(db: Tables, cause: Cause, user: UserId, targets: set<SessionId>): set<SessionId> {
    match cause
    case RevokeOthers(_, keep, _) => UnrevokedSessionsOf(db, user) - {keep}
    case RevokeAll(_) => UnrevokedSessionsOf(db, user)
    case _ => targets
  }

  function RevokedAt(cause: Cause, markerAt: int): int {
    match cause
    case Reuse(_, observedAt) => observedAt
    case RevokeOne(_, _, now) => now
    case RevokeOthers(_, _, now) => now
    case Logout(_) => markerAt
    case RevokeAll(_) => markerAt
  }

  function Doomed(db: Tables, cause: Cause, user: UserId): set<TokenHash> {
    match cause
    case RevokeOne(_, id, _) => TokensOf(db, {id})
    case RevokeOthers(_, keep, _) => TokensOf(db, SessionsOf(db, user) - {keep})
    case _ => {}
  }

  function CommitRevokeStep(s: Sys, t: TxId): Sys
    requires t in s.txs
  {
    match s.txs[t]
    case RevokeMarked(cause, user, markerAt, targets, markerOk) =>
      var ids := RevokedBy(s.db, cause, user, targets);
      End(s, t).(
        db := DeleteTokens(Revoke(s.db, ids, RevokedAt(cause, markerAt)), Doomed(s.db, cause, user)),
        revoked := s.revoked + ids + targets,
        fences := s.fences + (set id | id in targets && markerOk && !cause.RevokeAll? :: SessionFence(id, markerAt)),
        userFences := if cause.RevokeAll? && markerOk
          then s.userFences + {UserFence(user, markerAt, IssuedTo(s, user), ids)}
          else s.userFences)
    case _ => s
  }

  function Advance(s: Sys, t: TxId, op: Op): Sys
    requires t in s.txs
  {
    match op
    case Read => ReadStep(s, t)
    case LockShared => LockSharedStep(s, t)
    case LockRow => LockRowStep(s, t)
    case Check => CheckStep(s, t)
    case Delete => DeleteStep(s, t)
    case CommitRefresh(successor) => CommitRefreshStep(s, t, successor)
    case CommitSwitch(successor) => CommitSwitchStep(s, t, successor)
    case CommitCreate(id, hash) => CommitCreateStep(s, t, id, hash)
    case LockExclusive => LockExclusiveStep(s, t)
    case ReadClock => ReadClockStep(s, t)
    case WriteMarkers(ok, landed) => WriteMarkersStep(s, t, ok, landed)
    case CommitRevoke => CommitRevokeStep(s, t)
    case Abort => End(s, t)
  }

  function BeginStep(s: Sys, t: TxId, tx: Tx, timely: bool): Sys {
    if t in s.txs || !timely then s else Put(s, t, tx)
  }

  /** The cleanup job: an expired or revoked session goes, with its tokens, unless one of the
      rows is locked. */
  function RemoveSessionStep(s: Sys, id: SessionId): Sys {
    if id in s.db.sessions && (s.db.sessions[id].revokedAt.Some? || s.db.sessions[id].expiresAt < s.clock)
       && SessionRowAvailable(s, id) && (forall h <- TokensOf(s.db, {id}) :: RowAvailable(s, h))
    then s.(db := DeleteSession(s.db, id)) else s
  }

  /** The cleanup job: an expired token goes unless it is a tombstone or locked. */
  function RemoveTokenStep(s: Sys, hash: TokenHash): Sys {
    if hash in s.db.tokens && s.db.tokens[hash].consumedAt.None? && s.db.tokens[hash].expiresAt < s.clock
       && RowAvailable(s, hash)
    then s.(db := DeleteTokens(s.db, {hash})) else s
  }

  function Apply(s: Sys, a: Action): Sys {
    match a
    case Tick(elapsed) => s.(clock := s.clock + elapsed)
    case BeginRefresh(t, hash, now, policy) => BeginStep(s, t, RefreshBegun(hash, now, policy), now <= s.clock)
    case BeginSwitch(t, user, id, organization, now, policy) =>
      BeginStep(s, t, SwitchBegun(user, id, organization, now, policy), now <= s.clock)
    case BeginCreate(t, user, organization, now, policy) =>
      BeginStep(s, t, CreateBegun(user, organization, now, policy), now <= s.clock)
    case BeginRevoke(t, cause) => BeginStep(s, t, RevokeBegun(cause), CauseTimely(cause, s.clock))
    case RemoveSession(id) => RemoveSessionStep(s, id)
    case RemoveToken(hash) => RemoveTokenStep(s, hash)
    case Step(t, op) => if t in s.txs then Advance(s, t, op) else s
  }

  function Run(s: Sys, actions: seq<Action>): Sys
    decreases |actions|
  {
    if actions == [] then s else Run(Apply(s, actions[0]), actions[1..])
  }

  // The invariant

  ghost predicate LocksExclude(s: Sys) {
    forall t <- s.txs, o <- s.txs ::
      t != o && ExclusiveLock(s.txs[t]).Some? ==>
      SharedLock(s.txs[o]) != ExclusiveLock(s.txs[t]) && ExclusiveLock(s.txs[o]) != ExclusiveLock(s.txs[t])
  }

  ghost predicate TablesRecorded(s: Sys) {
    && (forall id <- s.db.sessions :: id in s.owner && s.owner[id] == s.db.sessions[id].user)
    && (forall h <- s.db.tokens :: h in s.family && s.family[h] == s.db.tokens[h].session)
    && (forall h <- s.family :: s.family[h] in s.owner)
  }

  ghost predicate IssuedRecorded(s: Sys) {
    forall k <- s.issued :: k.session in s.owner && s.owner[k.session] == k.user && k.iat <= s.clock
  }

  ghost predicate RevokedStay(s: Sys) {
    && (forall id <- s.revoked :: id in s.owner)
    && (forall id <- s.db.sessions :: s.db.sessions[id].revokedAt.Some? <==> id in s.revoked)
  }

  /** The token with this hash belongs to a session of the user. */
  ghost predicate Belongs(s: Sys, hash: TokenHash, user: UserId) {
    hash in s.family && s.family[hash] in s.owner && s.owner[s.family[hash]] == user
  }

  ghost predicate OwnUnrevoked(s: Sys, id: SessionId, user: UserId) {
    id in s.owner && s.owner[id] == user && id !in s.revoked
  }

  ghost predicate CauseRecorded(s: Sys, cause: Cause, user: UserId) {
    match cause
    case Reuse(id, _) => id in s.owner && s.owner[id] == user
    case Logout(hash) => Belongs(s, hash, user)
    case RevokeOne(u, _, _) => u == user
    case RevokeOthers(u, _, _) => u == user
    case RevokeAll(u) => u == user
  }

  /** No token of the user was handed out with a later issue time. */
  ghost predicate Covers(s: Sys, user: UserId, at: int) {
    at <= s.clock && forall k <- s.issued :: k.user == user ==> k.iat <= at
  }

  ghost predicate TargetsRecorded(s: Sys, cause: Cause, user: UserId, targets: set<SessionId>) {
    && (forall id <- targets :: id in s.owner && s.owner[id] == user)
    && (cause.RevokeAll? ==> targets == {})
    && (cause.RevokeOthers? ==> cause.keep !in targets)
  }

  ghost predicate Marked(s: Sys, cause: Cause, user: UserId, at: int, targets: set<SessionId>) {
    if cause.RevokeAll? then user in s.userMarkers && at <= s.userMarkers[user]
    else forall id <- targets :: id in s.markers && at <= s.markers[id]
  }

  ghost predicate TxOk(s: Sys, tx: Tx) {
    match tx
    case RefreshBegun(_, now, _) => now <= s.clock
    case RefreshRead(hash, now, _, user) => now <= s.clock && Belongs(s, hash, user)
    case RefreshShared(hash, now, _, user) => now <= s.clock && Belongs(s, hash, user)
    case RefreshHeld(hash, now, _, user, token) =>
      now <= s.clock && Belongs(s, hash, user) && token.session == s.family[hash]
    case RefreshChecked(hash, now, _, user, token, _) =>
      now <= s.clock && Belongs(s, hash, user) && token.session == s.family[hash] && token.session !in s.revoked
    case SwitchBegun(_, _, _, now, _) => now <= s.clock
    case SwitchShared(_, _, _, now, _) => now <= s.clock
    case SwitchChecked(user, id, _, now, _) => now <= s.clock && OwnUnrevoked(s, id, user)
    case SwitchDeleting(user, id, _, now, _, _) => now <= s.clock && OwnUnrevoked(s, id, user)
    case CreateBegun(_, _, now, _) => now <= s.clock
    case CreateShared(_, _, now, _) => now <= s.clock
    case RevokeBegun(cause) => CauseTimely(cause, s.clock)
    case RevokeRead(cause, user) => CauseTimely(cause, s.clock) && CauseRecorded(s, cause, user)
    case RevokeLocked(cause, user) => CauseTimely(cause, s.clock) && CauseRecorded(s, cause, user)
    case RevokeTimed(cause, user, at, targets) =>
      CauseRecorded(s, cause, user) && Covers(s, user, at) && TargetsRecorded(s, cause, user, targets)
    case RevokeMarked(cause, user, at, targets, ok) =>
      CauseRecorded(s, cause, user) && Covers(s, user, at) && TargetsRecorded(s, cause, user, targets)
      && (ok ==> Marked(s, cause, user, at, targets))
  }

  ghost predicate TxsOk(s: Sys) {
    forall t <- s.txs :: TxOk(s, s.txs[t])
  }

  ghost predicate FenceOk(s: Sys, f: SessionFence) {
    && f.session in s.revoked
    && f.session in s.markers && f.at <= s.markers[f.session]
    && (forall k <- s.issued :: k.session == f.session ==> k.iat <= f.at)
  }

  ghost predicate UserFenceOk(s: Sys, f: UserFence) {
    && f.user in s.userMarkers && f.at <= s.userMarkers[f.user]
    && (forall k <- f.before :: k.user == f.user && k.iat <= f.at)
    && f.sessions <= s.revoked
    && (forall k <- s.issued :: k.session in f.sessions ==> k in f.before)
  }

  ghost predicate FencesOk(s: Sys) {
    && (forall f <- s.fences :: FenceOk(s, f))
    && (forall f <- s.userFences :: UserFenceOk(s, f))
  }

  ghost predicate Inv(s: Sys) {
    LocksExclude(s) && TablesRecorded(s) && IssuedRecorded(s) && RevokedStay(s) && TxsOk(s) && FencesOk(s)
  }

  // What a step leaves alone

  ghost predicate Grows(s: Sys, s': Sys) {
    && s.clock <= s'.clock
    && (forall id <- s.owner :: id in s'.owner && s'.owner[id] == s.owner[id])
    && (forall h <- s.family :: h in s'.family && s'.family[h] == s.family[h])
    && (forall id <- s.markers :: id in s'.markers && s.markers[id] <= s'.markers[id])
    && (forall u <- s.userMarkers :: u in s'.userMarkers && s.userMarkers[u] <= s'.userMarkers[u])
    && (forall k <- s.issued :: k in s'.issued) && s.revoked <= s'.revoked
  }

  /** A transaction stays in order when nothing it locked out has happened. */
  lemma TxKept(s: Sys, s': Sys, tx: Tx)
    requires TxOk(s, tx) && Grows(s, s')
    requires forall k <- s'.issued :: k in s.issued || !HoldsExclusive(tx, k.user)
    requires forall id <- s'.revoked :: id in s.revoked || (id in s.owner && !HoldsShared(tx, s.owner[id]))
    ensures TxOk(s', tx)
  {
  }

  lemma PutKept(s: Sys, t: TxId, tx: Tx)
    requires Inv(s) && TxOk(s, tx)
    requires ExclusiveLock(tx).None? || ExclusiveAvailable(s, ExclusiveLock(tx).value) ||
             (t in s.txs && ExclusiveLock(s.txs[t]) == ExclusiveLock(tx))
    requires SharedLock(tx).None? || SharedAvailable(s, SharedLock(tx).value) ||
             (t in s.txs && SharedLock(s.txs[t]) == SharedLock(tx))
    ensures Inv(Put(s, t, tx))
  {
    var s' := Put(s, t, tx);
    forall o <- s'.txs ensures TxOk(s', s'.txs[o]) {
      TxKept(s, s', if o == t then tx else s.txs[o]);
    }
  }

  lemma EndKept(s: Sys, t: TxId)
    requires Inv(s)
    ensures Inv(End(s, t))
  {
    var s' := End(s, t);
    forall o <- s'.txs ensures TxOk(s', s'.txs[o]) {
      TxKept(s, s', s.txs[o]);
    }
  }

  // Every step keeps the invariant

  lemma CauseReadRecorded(s: Sys, cause: Cause)
    requires TablesRecorded(s) && ReadCause(s.db, cause).Some?
    ensures CauseRecorded(s, cause, ReadCause(s.db, cause).value)
  {
  }

  lemma ReadKept(s: Sys, t: TxId)
    requires Inv(s) && t in s.txs
    ensures Inv(ReadStep(s, t))
  {
    hide ReadCause;
    assert TxOk(s, s.txs[t]);
    var s' := ReadStep(s, t);
    if s.txs[t].RevokeBegun? && ReadCause(s.db, s.txs[t].cause).Some? {
      CauseReadRecorded(s, s.txs[t].cause);
      PutKept(s, t, s'.txs[t]);
    } else if s' == End(s, t) {
      EndKept(s, t);
    } else if s' != s {
      PutKept(s, t, s'.txs[t]);
    }
  }

  lemma LockSharedKept(s: Sys, t: TxId)
    requires Inv(s) && t in s.txs
    ensures Inv(LockSharedStep(s, t))
  {
    assert TxOk(s, s.txs[t]);
    var s' := LockSharedStep(s, t);
    if s' != s {
      PutKept(s, t, s'.txs[t]);
    }
  }

  lemma LockRowKept(s: Sys, t: TxId)
    requires Inv(s) && t in s.txs
    ensures Inv(LockRowStep(s, t))
  {
    assert TxOk(s, s.txs[t]);
    var s' := LockRowStep(s, t);
    if s' == End(s, t) {
      EndKept(s, t);
    } else if s' != s {
      PutKept(s, t, s'.txs[t]);
    }
  }

  lemma CheckKept(s: Sys, t: TxId)
    requires Inv(s) && t in s.txs
    ensures Inv(CheckStep(s, t))
  {
    assert TxOk(s, s.txs[t]);
    var s' := CheckStep(s, t);
    if s' == End(s, t) {
      EndKept(s, t);
    } else if s' != s {
      PutKept(s, t, s'.txs[t]);
    }
  }

  lemma DeleteKept(s: Sys, t: TxId)
    requires Inv(s) && t in s.txs
    ensures Inv(DeleteStep(s, t))
  {
    assert TxOk(s, s.txs[t]);
    var s' := DeleteStep(s, t);
    if s' == End(s, t) {
      EndKept(s, t);
    } else if s' != s {
      PutKept(s, t, s'.txs[t]);
    }
  }

  lemma LockExclusiveKept(s: Sys, t: TxId)
    requires Inv(s) && t in s.txs
    ensures Inv(LockExclusiveStep(s, t))
  {
    assert TxOk(s, s.txs[t]);
    var s' := LockExclusiveStep(s, t);
    if s' != s {
      PutKept(s, t, s'.txs[t]);
    }
  }

  lemma ReadClockKept(s: Sys, t: TxId)
    requires Inv(s) && t in s.txs
    ensures Inv(ReadClockStep(s, t))
  {
    assert TxOk(s, s.txs[t]);
    var s' := ReadClockStep(s, t);
    if s' == End(s, t) {
      EndKept(s, t);
    } else if s' != s {
      PutKept(s, t, s'.txs[t]);
    }
  }

  lemma RaiseKept(s: Sys, markers: map<SessionId, int>, userMarkers: map<UserId, int>)
    requires Inv(s)
    requires forall id <- s.markers :: id in markers && s.markers[id] <= markers[id]
    requires forall u <- s.userMarkers :: u in userMarkers && s.userMarkers[u] <= userMarkers[u]
    ensures Inv(s.(markers := markers, userMarkers := userMarkers))
  {
    var s' := s.(markers := markers, userMarkers := userMarkers);
    forall o <- s'.txs ensures TxOk(s', s'.txs[o]) {
      TxKept(s, s', s.txs[o]);
    }
  }

  lemma MarksKept(s: Sys, cause: Cause, user: UserId, markerAt: int, targets: set<SessionId>)
    requires Inv(s)
    ensures Inv(Marks(s, cause, user, markerAt, targets)) &&
        Marked(Marks(s, cause, user, markerAt, targets), cause, user, markerAt, targets)
    ensures Marks(s, cause, user, markerAt, targets).txs == s.txs
  {
    var s' := Marks(s, cause, user, markerAt, targets);
    RaiseKept(s, s'.markers, s'.userMarkers);
    assert s' == s.(markers := s'.markers, userMarkers := s'.userMarkers);
  }

  lemma WriteMarkersKept(s: Sys, t: TxId, ok: bool, landed: set<SessionId>)
    requires Inv(s) && t in s.txs
    ensures Inv(WriteMarkersStep(s, t, ok, landed))
  {
    hide Inv, Marked, Marks;
    if s.txs[t].RevokeTimed? {
      var tx := s.txs[t];
      var targets := if ok then tx.targets else tx.targets * landed;
      var marked := if ok || landed != {} then Marks(s, tx.cause, tx.user, tx.markerAt, targets) else s;
      MarksKept(s, tx.cause, tx.user, tx.markerAt, targets);
      if ok || tx.cause.Reuse? {
        MarkedKept(marked, t, ok);
      } else {
        EndKept(marked, t);
      }
    }
  }

  lemma MarkedKept(s: Sys, t: TxId, ok: bool)
    requires Inv(s) && t in s.txs && s.txs[t].RevokeTimed?
    requires ok ==> Marked(s, s.txs[t].cause, s.txs[t].user, s.txs[t].markerAt, s.txs[t].targets)
    ensures var tx := s.txs[t]; Inv(Put(s, t, RevokeMarked(tx.cause, tx.user, tx.markerAt, tx.targets, ok)))
  {
    var tx := s.txs[t];
    assert TxOk(s, tx);
    PutKept(s, t, RevokeMarked(tx.cause, tx.user, tx.markerAt, tx.targets, ok));
  }

  lemma TxAt(s: Sys, t: TxId)
    requires Inv(s) && t in s.txs
    ensures TxOk(s, s.txs[t]) && TablesRecorded(s) && RevokedStay(s)
  {
  }

  /** The issuing commits: `t` held the user's row shared and its session is not revoked. */
  lemma IssueKept(s: Sys, s': Sys, t: TxId, k: Issued)
    requires Inv(s) && t in s.txs && HoldsShared(s.txs[t], k.user)
    requires Grows(s, s') && s'.txs == s.txs - {t} && s'.issued == s.issued + [k] && s'.clock == s.clock
    requires s'.revoked == s.revoked && s'.markers == s.markers && s'.userMarkers == s.userMarkers
    requires s'.fences == s.fences && s'.userFences == s.userFences
    requires k.session !in s.revoked && k.iat <= s.clock && k.session in s'.owner && s'.owner[k.session] == k.user
    requires TablesRecorded(s') && RevokedStay(s')
    ensures Inv(s')
  {
    hide TablesRecorded, RevokedStay;
    forall o <- s'.txs ensures TxOk(s', s'.txs[o]) {
      assert o != t && !HoldsExclusive(s.txs[o], k.user);
      TxKept(s, s', s.txs[o]);
    }
    forall f <- s'.fences ensures FenceOk(s', f) {
      assert FenceOk(s, f);
    }
    forall f <- s'.userFences ensures UserFenceOk(s', f) {
      assert UserFenceOk(s, f);
    }
  }

  /** The records of the tables do not look at the transactions or at what was issued. */
  lemma RecordsMatter(s: Sys, s': Sys)
    requires TablesRecorded(s) && RevokedStay(s)
    requires s'.db == s.db && s'.family == s.family && s'.owner == s.owner && s'.revoked == s.revoked
    ensures TablesRecorded(s') && RevokedStay(s')
  {
  }

  lemma RotationRecorded(s: Sys, hash: TokenHash, successor: TokenHash, now: int, policy: SessionPolicy, expiresAt: int)
    requires TablesRecorded(s) && RevokedStay(s) && hash in s.db.tokens && successor !in s.family
    ensures hash in s.family && s.family[hash] == s.db.tokens[hash].session
    ensures var s' := s.(family := s.family[successor := s.db.tokens[hash].session],
                         db := RotateToken(s.db, hash, successor, now, policy, expiresAt));
            TablesRecorded(s') && RevokedStay(s')
  {
  }

  lemma CommitRefreshKept(s: Sys, t: TxId, successor: TokenHash)
    requires Inv(s) && t in s.txs
    ensures Inv(CommitRefreshStep(s, t, successor))
  {
    hide Inv, TablesRecorded, RevokedStay, RotateToken, ShouldRotate;
    var tx := s.txs[t];
    var s' := CommitRefreshStep(s, t, successor);
    TxAt(s, t);
    EndKept(s, t);
    if tx.RefreshChecked? {
      if !RotatesAtCommit(tx) {
        RecordsMatter(s, s');
        IssueKept(s, s', t, Issued(tx.token.session, tx.user, tx.now));
      } else if successor !in s.family && tx.hash in s.db.tokens && s.db.tokens[tx.hash].consumedAt.None? &&
                tx.token.session in s.db.sessions {
        RotationRecorded(s, tx.hash, successor, tx.now, tx.policy, tx.session.expiresAt);
        RecordsMatter(s.(family := s'.family, db := s'.db), s');
        IssueKept(s, s', t, Issued(tx.token.session, tx.user, tx.now));
      }
    }
  }

  lemma SwitchRecorded(s: Sys, id: SessionId, organization: OrganizationId, doomed: set<TokenHash>,
                       successor: TokenHash, now: int, policy: SessionPolicy)
    requires TablesRecorded(s) && RevokedStay(s) && id in s.db.sessions && successor !in s.family
    ensures var s' := s.(family := s.family[successor := id],
                         db := SwitchOrganization(s.db, id, organization, doomed, successor, now, policy));
            TablesRecorded(s') && RevokedStay(s')
  {
  }

  lemma CommitSwitchKept(s: Sys, t: TxId, successor: TokenHash)
    requires Inv(s) && t in s.txs
    ensures Inv(CommitSwitchStep(s, t, successor))
  {
    hide Inv, TablesRecorded, RevokedStay, SwitchOrganization, RowsAvailableTo;
    var tx := s.txs[t];
    var s' := CommitSwitchStep(s, t, successor);
    TxAt(s, t);
    EndKept(s, t);
    if tx.SwitchDeleting? && successor !in s.family && RowsAvailableTo(s, t, tx.doomed) && tx.id in s.db.sessions {
      SwitchRecorded(s, tx.id, tx.organization, tx.doomed, successor, tx.now, tx.policy);
      RecordsMatter(s.(family := s'.family, db := s'.db), s');
      IssueKept(s, s', t, Issued(tx.id, tx.user, tx.now));
    }
  }

  lemma CreationRecorded(s: Sys, id: SessionId, hash: TokenHash, user: UserId, organization: OrganizationId, now: int,
                         policy: SessionPolicy)
    requires TablesRecorded(s) && RevokedStay(s) && id !in s.owner && hash !in s.family
    ensures var s' := s.(owner := s.owner[id := user], family := s.family[hash := id],
                         db := OpenSession(s.db, id, hash, user, organization, now, s.clock, policy));
            TablesRecorded(s') && RevokedStay(s') && id !in s.revoked
  {
  }

  lemma CommitCreateKept(s: Sys, t: TxId, id: SessionId, hash: TokenHash)
    requires Inv(s) && t in s.txs
    ensures Inv(CommitCreateStep(s, t, id, hash))
  {
    hide Inv, TablesRecorded, RevokedStay, OpenSession;
    var tx := s.txs[t];
    var s' := CommitCreateStep(s, t, id, hash);
    TxAt(s, t);
    if tx.CreateShared? && id !in s.owner && hash !in s.family {
      CreationRecorded(s, id, hash, tx.user, tx.organization, tx.now, tx.policy);
      RecordsMatter(s.(owner := s'.owner, family := s'.family, db := s'.db), s');
      IssueKept(s, s', t, Issued(id, tx.user, tx.now));
    }
  }

  lemma CommitRevokeTables(s: Sys, t: TxId)
    requires Inv(s) && t in s.txs && s.txs[t].RevokeMarked?
    ensures var s' := CommitRevokeStep(s, t);
            && TablesRecorded(s') && IssuedRecorded(s') && RevokedStay(s')
            && forall id <- s'.revoked :: id in s.revoked || (id in s.owner && s.owner[id] == s.txs[t].user)
  {
    assert TxOk(s, s.txs[t]);
  }

  lemma CommitRevokeFences(s: Sys, t: TxId)
    requires Inv(s) && t in s.txs && s.txs[t].RevokeMarked?
    ensures FencesOk(CommitRevokeStep(s, t))
  {
    hide Revoke, DeleteTokens;
    var s' := CommitRevokeStep(s, t);
    assert TxOk(s, s.txs[t]);
    forall f <- s'.fences ensures FenceOk(s', f) {
      if f in s.fences {
        assert FenceOk(s, f);
      }
    }
    forall f <- s'.userFences ensures UserFenceOk(s', f) {
      if f in s.userFences {
        assert UserFenceOk(s, f);
      }
    }
  }

  lemma CommitRevokeKept(s: Sys, t: TxId)
    requires Inv(s) && t in s.txs
    ensures Inv(CommitRevokeStep(s, t))
  {
    if s.txs[t].RevokeMarked? {
      var s' := CommitRevokeStep(s, t);
      CommitRevokeTables(s, t);
      CommitRevokeFences(s, t);
      forall o <- s'.txs ensures TxOk(s', s'.txs[o]) {
        assert ExclusiveLock(s.txs[t]) == Some(s.txs[t].user) && o != t;
        TxKept(s, s', s.txs[o]);
      }
    }
  }

  lemma RemoveKept(s: Sys, s': Sys)
    requires Inv(s) && s' == s.(db := s'.db)
    requires forall id <- s'.db.sessions :: id in s.db.sessions && s'.db.sessions[id] == s.db.sessions[id]
    requires forall h <- s'.db.tokens :: h in s.db.tokens && s'.db.tokens[h] == s.db.tokens[h]
    ensures Inv(s')
  {
    forall o <- s'.txs ensures TxOk(s', s'.txs[o]) {
      TxKept(s, s', s.txs[o]);
    }
    forall f <- s'.fences ensures FenceOk(s', f) {
      assert FenceOk(s, f);
    }
    forall f <- s'.userFences ensures UserFenceOk(s', f) {
      assert UserFenceOk(s, f);
    }
  }

  lemma TickKept(s: Sys, elapsed: nat)
    requires Inv(s)
    ensures Inv(s.(clock := s.clock + elapsed))
  {
    var s' := s.(clock := s.clock + elapsed);
    forall o <- s'.txs ensures TxOk(s', s'.txs[o]) {
      TxKept(s, s', s.txs[o]);
    }
    forall f <- s'.fences ensures FenceOk(s', f) {
      assert FenceOk(s, f);
    }
    forall f <- s'.userFences ensures UserFenceOk(s', f) {
      assert UserFenceOk(s, f);
    }
  }

  lemma AdvanceKept(s: Sys, t: TxId, op: Op)
    requires Inv(s) && t in s.txs
    ensures Inv(Advance(s, t, op))
  {
    hide Inv;
    match op
    case Read => ReadKept(s, t);
    case LockShared => LockSharedKept(s, t);
    case LockRow => LockRowKept(s, t);
    case Check => CheckKept(s, t);
    case Delete => DeleteKept(s, t);
    case CommitRefresh(successor) => CommitRefreshKept(s, t, successor);
    case CommitSwitch(successor) => CommitSwitchKept(s, t, successor);
    case CommitCreate(id, hash) => CommitCreateKept(s, t, id, hash);
    case LockExclusive => LockExclusiveKept(s, t);
    case ReadClock => ReadClockKept(s, t);
    case WriteMarkers(ok, landed) => WriteMarkersKept(s, t, ok, landed);
    case CommitRevoke => CommitRevokeKept(s, t);
    case Abort => EndKept(s, t);
  }

  lemma BeginKept(s: Sys, t: TxId, tx: Tx, timely: bool)
    requires Inv(s) && (timely ==> TxOk(s, tx)) && SharedLock(tx).None? && ExclusiveLock(tx).None?
    ensures Inv(BeginStep(s, t, tx, timely))
  {
    if timely {
      PutKept(s, t, tx);
    }
  }

  lemma ApplyKept(s: Sys, a: Action)
    requires Inv(s)
    ensures Inv(Apply(s, a))
  {
    hide Inv, BeginStep, Advance;
    match a
    case Tick(elapsed) => TickKept(s, elapsed);
    case BeginRefresh(t, hash, now, policy) => BeginKept(s, t, RefreshBegun(hash, now, policy), now <= s.clock);
    case BeginSwitch(t, user, id, organization, now, policy) =>
      BeginKept(s, t, SwitchBegun(user, id, organization, now, policy), now <= s.clock);
    case BeginCreate(t, user, organization, now, policy) =>
      BeginKept(s, t, CreateBegun(user, organization, now, policy), now <= s.clock);
    case BeginRevoke(t, cause) => BeginKept(s, t, RevokeBegun(cause), CauseTimely(cause, s.clock));
    case RemoveSession(id) => RemoveKept(s, RemoveSessionStep(s, id));
    case RemoveToken(hash) => RemoveKept(s, RemoveTokenStep(s, hash));
    case Step(t, op) => if t in s.txs { AdvanceKept(s, t, op); }
  }

  lemma InitOk(clock: int)
    ensures Inv(Init(clock))
  {
  }

  lemma {:induction false} RunKept(s: Sys, actions: seq<Action>)
    requires Inv(s)
    ensures Inv(Run(s, actions))
    decreases |actions|
  {
    if actions != [] {
      ApplyKept(s, actions[0]);
      RunKept(Apply(s, actions[0]), actions[1..]);
    }
  }

  // Main results

  function IssuedFor(s: Sys, id: SessionId): set<Issued> {
    set k | k in s.issued && k.session == id
  }

  /** The grants of a session among those of a run, in order, repetitions included. */
  function GrantsOf(issued: seq<Issued>, id: SessionId): seq<Issued> {
    if issued == [] then []
    else
      var last := issued[|issued| - 1];
      GrantsOf(issued[..|issued| - 1], id) + (if last.session == id then [last] else [])
  }

  lemma GrantToAnother(issued: seq<Issued>, k: Issued, id: SessionId)
    requires k.session != id
    ensures GrantsOf(issued + [k], id) == GrantsOf(issued, id)
  {
    assert (issued + [k])[..|issued|] == issued;
  }

  /** The session gets no access token, no refresh token and no new life: its grants are the same,
      its refresh tokens are among the old ones, as they were, and it stays revoked. */
  ghost predicate Spares(s: Sys, s': Sys, id: SessionId) {
    && id in s'.revoked
    && GrantsOf(s'.issued, id) == GrantsOf(s.issued, id)
    && (forall h <- s'.family | s'.family[h] == id :: h in s.family && s.family[h] == id)
    && (forall h <- s'.db.tokens | s'.db.tokens[h].session == id ::
        h in s.db.tokens && s.db.tokens[h] == s'.db.tokens[h])
  }

  lemma RevokedOwned(s: Sys, id: SessionId)
    requires Inv(s) && id in s.revoked
    ensures id in s.owner
  {
  }

  lemma TokenRecorded(s: Sys, hash: TokenHash)
    requires Inv(s) && hash in s.db.tokens
    ensures hash in s.family && s.family[hash] == s.db.tokens[hash].session
  {
  }

  lemma RefreshCommitSpares(s: Sys, t: TxId, successor: TokenHash, id: SessionId)
    requires Inv(s) && t in s.txs && id in s.revoked
    ensures Spares(s, CommitRefreshStep(s, t, successor), id)
  {
    hide Inv, GrantsOf;
    TxAt(s, t);
    if s.txs[t].RefreshChecked? {
      GrantToAnother(s.issued, Issued(s.txs[t].token.session, s.txs[t].user, s.txs[t].now), id);
      if s.txs[t].hash in s.db.tokens {
        TokenRecorded(s, s.txs[t].hash);
      }
    }
  }

  lemma SwitchCommitSpares(s: Sys, t: TxId, successor: TokenHash, id: SessionId)
    requires Inv(s) && t in s.txs && id in s.revoked
    ensures Spares(s, CommitSwitchStep(s, t, successor), id)
  {
    hide Inv, GrantsOf;
    TxAt(s, t);
    if s.txs[t].SwitchDeleting? {
      GrantToAnother(s.issued, Issued(s.txs[t].id, s.txs[t].user, s.txs[t].now), id);
    }
  }

  lemma CreateCommitSpares(s: Sys, t: TxId, newId: SessionId, hash: TokenHash, id: SessionId)
    requires Inv(s) && t in s.txs && id in s.revoked
    ensures Spares(s, CommitCreateStep(s, t, newId, hash), id)
  {
    hide Inv, GrantsOf;
    RevokedOwned(s, id);
    if s.txs[t].CreateShared? && newId != id {
      GrantToAnother(s.issued, Issued(newId, s.txs[t].user, s.txs[t].now), id);
    }
  }

  lemma RevokeCommitSpares(s: Sys, t: TxId, id: SessionId)
    requires t in s.txs && id in s.revoked
    ensures Spares(s, CommitRevokeStep(s, t), id)
  {
    hide GrantsOf;
  }

  /** Steps other than commits change neither the log of grants nor the tables. */
  predicate Commits(op: Op) {
    op.CommitRefresh? || op.CommitSwitch? || op.CommitCreate? || op.CommitRevoke?
  }

  lemma QuietStep(s: Sys, t: TxId, op: Op)
    requires t in s.txs && !Commits(op)
    ensures var s' := Advance(s, t, op);
      && s'.issued == s.issued && s'.family == s.family && s'.db == s.db && s'.revoked == s.revoked
      && s'.owner == s.owner && s'.fences == s.fences && s'.userFences == s.userFences && s'.clock == s.clock
  {
    hide ReadStep, LockSharedStep, LockRowStep, CheckStep, DeleteStep, LockExclusiveStep, ReadClockStep;
    hide WriteMarkersStep;
  }

  lemma AdvanceSpares(s: Sys, t: TxId, op: Op, id: SessionId)
    requires Inv(s) && t in s.txs && id in s.revoked
    ensures Spares(s, Advance(s, t, op), id)
  {
    hide Inv, GrantsOf, CommitRefreshStep, CommitSwitchStep, CommitCreateStep, CommitRevokeStep;
    match op
    case CommitRefresh(successor) => RefreshCommitSpares(s, t, successor, id);
    case CommitSwitch(successor) => SwitchCommitSpares(s, t, successor, id);
    case CommitCreate(newId, hash) => CreateCommitSpares(s, t, newId, hash, id);
    case CommitRevoke => RevokeCommitSpares(s, t, id);
    case _ =>
      QuietStep(s, t, op);
      hide Advance;
  }

  lemma RevokedStepGrantsNothing(s: Sys, a: Action, id: SessionId)
    requires Inv(s) && id in s.revoked
    ensures Spares(s, Apply(s, a), id)
  {
    hide Inv, GrantsOf, Advance;
    if a.Step? && a.t in s.txs {
      AdvanceSpares(s, a.t, a.op, id);
    }
  }

  lemma {:induction false} RevokedRunGrantsNothing(s: Sys, actions: seq<Action>, id: SessionId)
    requires Inv(s) && id in s.revoked
    ensures Spares(s, Run(s, actions), id)
    decreases |actions|
  {
    hide Inv, GrantsOf, Apply;
    if actions != [] {
      ApplyKept(s, actions[0]);
      RevokedStepGrantsNothing(s, actions[0], id);
      RevokedRunGrantsNothing(Apply(s, actions[0]), actions[1..], id);
    }
  }

  /** However the run goes on, a session whose row is revoked is never again granted anything: not
      one refresh or switch of it succeeds, its refresh tokens are neither rotated nor joined by new
      ones, and its row, while it exists, stays revoked. */
  lemma RevocationIsFinal(clock: int, before: seq<Action>, after: seq<Action>, id: SessionId)
    requires var db := Run(Init(clock), before).db; id in db.sessions && db.sessions[id].revokedAt.Some?
    ensures var s := Run(Init(clock), before);
            var later := Run(s, after);
            Spares(s, later, id) && (id in later.db.sessions ==> later.db.sessions[id].revokedAt.Some?)
  {
    var s := Run(Init(clock), before);
    InitOk(clock);
    RunKept(Init(clock), before);
    RevokedRunGrantsNothing(s, after, id);
    RunKept(s, after);
  }

  lemma CommitRevokeApplied(s: Sys, t: TxId)
    requires t in s.txs
    ensures Apply(s, Step(t, CommitRevoke)) == CommitRevokeStep(s, t)
  {
    hide CommitRevokeStep;
  }

  lemma CommitRevokeFencesTargets(s: Sys, t: TxId, id: SessionId)
    requires Inv(s) && t in s.txs && s.txs[t].RevokeMarked? && id in s.txs[t].targets
    ensures var s' := CommitRevokeStep(s, t);
            && (id in s'.db.sessions ==> s'.db.sessions[id].revokedAt.Some?)
            && id in s'.revoked
            && (s.txs[t].markerOk ==>
                  id in s'.markers && forall k <- IssuedFor(s', id) :: k.iat <= s.txs[t].markerAt <= s'.markers[id])
  {
    TxAt(s, t);
    CommitRevokeTables(s, t);
    hide Inv, TablesRecorded;
  }

  /** When a revocation of chosen sessions commits, their rows are revoked; if its marker
      was written, every token handed out for them has an issue time the marker covers. */
  lemma CommitFences(clock: int, actions: seq<Action>, t: TxId, id: SessionId)
    requires var s := Run(Init(clock), actions); t in s.txs && s.txs[t].RevokeMarked? && id in s.txs[t].targets
    ensures var s := Run(Init(clock), actions);
            var s' := Apply(s, Step(t, CommitRevoke));
            && (id in s'.db.sessions ==> s'.db.sessions[id].revokedAt.Some?)
            && id in s'.revoked
            && (s.txs[t].markerOk ==>
                  id in s'.markers && forall k <- IssuedFor(s', id) :: k.iat <= s.txs[t].markerAt <= s'.markers[id])
  {
    hide Inv, Apply, CommitRevokeStep;
    InitOk(clock);
    RunKept(Init(clock), actions);
    CommitRevokeApplied(Run(Init(clock), actions), t);
    CommitRevokeFencesTargets(Run(Init(clock), actions), t, id);
  }

  lemma CommitRevokeFencesUser(s: Sys, t: TxId)
    requires Inv(s) && t in s.txs && s.txs[t].RevokeMarked? && s.txs[t].cause.RevokeAll?
    ensures var s' := CommitRevokeStep(s, t);
            var user := s.txs[t].user;
            && UnrevokedSessionsOf(s'.db, user) == {}
            && (s.txs[t].markerOk ==>
                  user in s'.userMarkers && forall k <- IssuedTo(s', user) ::
                      k.iat <= s.txs[t].markerAt <= s'.userMarkers[user])
  {
    TxAt(s, t);
    hide Inv, TablesRecorded, RevokedStay;
  }

  /** When RevokeAllSessions commits, the user's marker covers every token handed out to the
      user, and every session row of the user is revoked. */
  lemma CommitFencesUser(clock: int, actions: seq<Action>, t: TxId)
    requires var s := Run(Init(clock), actions);
             t in s.txs && s.txs[t].RevokeMarked? && s.txs[t].cause.RevokeAll?
    ensures var s := Run(Init(clock), actions);
            var s' := Apply(s, Step(t, CommitRevoke));
            var user := s.txs[t].user;
            && UnrevokedSessionsOf(s'.db, user) == {}
            && (s.txs[t].markerOk ==>
                  user in s'.userMarkers && forall k <- IssuedTo(s', user) ::
                      k.iat <= s.txs[t].markerAt <= s'.userMarkers[user])
  {
    hide Inv, Apply, CommitRevokeStep, UnrevokedSessionsOf;
    InitOk(clock);
    RunKept(Init(clock), actions);
    CommitRevokeApplied(Run(Init(clock), actions), t);
    CommitRevokeFencesUser(Run(Init(clock), actions), t);
  }

  /** A marker once committed covers its session's tokens for the rest of the run. */
  lemma FencesHold(clock: int, actions: seq<Action>, f: SessionFence)
    requires f in Run(Init(clock), actions).fences
    ensures var s := Run(Init(clock), actions);
            f.session in s.markers && forall k <- IssuedFor(s, f.session) :: k.iat <= f.at <= s.markers[f.session]
  {
    InitOk(clock);
    RunKept(Init(clock), actions);
    assert FenceOk(Run(Init(clock), actions), f);
  }
}
