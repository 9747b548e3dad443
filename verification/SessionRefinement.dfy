/** The interleaved transactions of SessionFencing, run without interference, are the atomic
    ones of SessionService. */
module SessionRefinement {
  import opened Wrappers
  import opened SessionData
  import Atomic = SessionService
  import opened SessionFencing

  function RefreshActions(t: TxId, hash: TokenHash, now: int, policy: SessionPolicy, successor: TokenHash): seq<Action>
  {
    [BeginRefresh(t, hash, now, policy), Step(t, Read), Step(t, LockShared), Step(t, LockRow), Step(t, Check),
     Step(t, CommitRefresh(successor))]
  }

  function SwitchActions(t: TxId, user: UserId, id: SessionId, organization: OrganizationId, now: int,
                         policy: SessionPolicy, successor: TokenHash): seq<Action> {
    [BeginSwitch(t, user, id, organization, now, policy), Step(t, LockShared), Step(t, Check), Step(t, Delete),
     Step(t, CommitSwitch(successor))]
  }

  ghost predicate Leads(s: Sys, a: Action, s': Sys) {
    Apply(s, a) == s'
  }

  lemma RunHead(s: Sys, actions: seq<Action>, next: Sys)
    requires actions != [] && Leads(s, actions[0], next)
    ensures Run(s, actions) == Run(next, actions[1..])
  {
  }

  lemma RunFour(s: Sys, actions: seq<Action>, s1: Sys, s2: Sys, s3: Sys, s4: Sys)
    requires |actions| >= 4
    requires Leads(s, actions[0], s1) && Leads(s1, actions[1], s2) && Leads(s2, actions[2], s3) &&
        Leads(s3, actions[3], s4)
    ensures Run(s, actions) == Run(s4, actions[4..])
  {
    hide Apply;
    RunHead(s, actions, s1);
    RunHead(s1, actions[1..], s2);
    assert actions[1..][1..] == actions[2..];
    RunHead(s2, actions[2..], s3);
    assert actions[2..][1..] == actions[3..];
    RunHead(s3, actions[3..], s4);
    assert actions[3..][1..] == actions[4..];
  }

  /** The state in which `tx` is the only open transaction. */
  function Only(s: Sys, t: TxId, tx: Tx): Sys {
    s.(txs := map[t := tx])
  }

  /** The atomic outcome, told in the interleaved model's terms. */
  ghost predicate Refreshes(s: Sys, s': Sys, t: TxId, hash: TokenHash, now: int, policy: SessionPolicy,
                            successor: TokenHash)
  {
    var (db, outcome) := Atomic.RefreshTx(s.db, hash, true, successor, now, policy);
    && s'.db == db
    && s'.issued == (if outcome.Ok? && outcome.value.session in s.owner
                     then s.issued + [Issued(outcome.value.session, s.owner[outcome.value.session], now)] else s.issued)
    && s'.txs == (if outcome == Err(Atomic.ReuseDetected)
                  then map[t := RevokeBegun(Reuse(s.db.tokens[hash].session, now))] else map[])
  }

  /** A transaction that ended, or turned into a revoking one, takes no part in a refresh. */
  lemma Stopped(s: Sys, t: TxId, successor: TokenHash)
    requires t in s.txs ==> s.txs[t].RevokeBegun?
    ensures Leads(s, Step(t, LockShared), s) && Leads(s, Step(t, LockRow), s) && Leads(s, Step(t, Check), s)
    ensures Leads(s, Step(t, Delete), s)
    ensures Leads(s, Step(t, CommitRefresh(successor)), s) && Leads(s, Step(t, CommitSwitch(successor)), s)
  {
  }

  function Reader(s: Sys, hash: TokenHash): UserId
    requires hash in s.db.tokens && s.db.tokens[hash].session in s.db.sessions
  {
    s.db.sessions[s.db.tokens[hash].session].user
  }

  function AfterRead(s: Sys, t: TxId, hash: TokenHash, now: int, policy: SessionPolicy): Sys {
    match ReadToken(s.db, hash, now)
    case Refused => s
    case Reused(id) => Only(s, t, RevokeBegun(Reuse(id, now)))
    case Usable(token) =>
      if token.session !in s.db.sessions then s else Only(s, t, RefreshRead(hash, now, policy, Reader(s, hash)))
  }

  lemma BeginStage(s: Sys, t: TxId, hash: TokenHash, now: int, policy: SessionPolicy)
    requires s.txs == map[] && now <= s.clock
    ensures Leads(s, BeginRefresh(t, hash, now, policy), Only(s, t, RefreshBegun(hash, now, policy)))
  {
    assert Put(s, t, RefreshBegun(hash, now, policy)) == Only(s, t, RefreshBegun(hash, now, policy));
  }

  lemma ReadFirst(s: Sys, t: TxId, hash: TokenHash, now: int, policy: SessionPolicy)
    requires s.txs == map[]
    ensures ReadStep(Only(s, t, RefreshBegun(hash, now, policy)), t) == AfterRead(s, t, hash, now, policy)
  {
    hide ReadToken, ReadCause;
    var begun := Only(s, t, RefreshBegun(hash, now, policy));
    assert End(begun, t) == s;
    match ReadToken(s.db, hash, now)
    case Refused =>
    case Reused(id) => assert Put(begun, t, RevokeBegun(Reuse(id, now))) == Only(s, t, RevokeBegun(Reuse(id, now)));
    case Usable(token) =>
      UsableIs(s.db, hash, now);
      if token.session in s.db.sessions {
        var read := RefreshRead(hash, now, policy, Reader(s, hash));
        assert Put(begun, t, read) == Only(s, t, read);
      }
  }

  lemma UsableIs(db: Tables, hash: TokenHash, now: int)
    requires ReadToken(db, hash, now).Usable?
    ensures hash in db.tokens && ReadToken(db, hash, now).token == db.tokens[hash]
  {
  }

  lemma ReadApplied(s: Sys, t: TxId)
    requires t in s.txs
    ensures Apply(s, Step(t, Read)) == ReadStep(s, t)
  {
    hide ReadStep;
  }

  lemma ReadStage(s: Sys, t: TxId, hash: TokenHash, now: int, policy: SessionPolicy)
    requires s.txs == map[]
    ensures Leads(Only(s, t, RefreshBegun(hash, now, policy)), Step(t, Read), AfterRead(s, t, hash, now, policy))
  {
    hide Apply, ReadStep, AfterRead;
    ReadFirst(s, t, hash, now, policy);
    ReadApplied(Only(s, t, RefreshBegun(hash, now, policy)), t);
  }

  lemma LockStage(s: Sys, t: TxId, hash: TokenHash, now: int, policy: SessionPolicy)
    requires s.txs == map[] && ReadToken(s.db, hash, now).Usable? && s.db.tokens[hash].session in s.db.sessions
    ensures Leads(Only(s, t, RefreshRead(hash, now, policy, Reader(s, hash))), Step(t, LockShared),
                  Only(s, t, RefreshShared(hash, now, policy, Reader(s, hash))))
    ensures Leads(Only(s, t, RefreshShared(hash, now, policy, Reader(s, hash))), Step(t, LockRow),
                  Only(s, t, RefreshHeld(hash, now, policy, Reader(s, hash), s.db.tokens[hash])))
  {
  }

  function AfterCheck(s: Sys, t: TxId, hash: TokenHash, now: int, policy: SessionPolicy): Sys
    requires hash in s.db.tokens && s.db.tokens[hash].session in s.db.sessions
  {
    var session := s.db.sessions[s.db.tokens[hash].session];
    if session.expiresAt < now || session.revokedAt.Some? then s
    else Only(s, t, RefreshChecked(hash, now, policy, Reader(s, hash), s.db.tokens[hash], session))
  }

  lemma CheckStage(s: Sys, t: TxId, hash: TokenHash, now: int, policy: SessionPolicy)
    requires s.txs == map[] && hash in s.db.tokens && s.db.tokens[hash].session in s.db.sessions
    ensures Leads(Only(s, t, RefreshHeld(hash, now, policy, Reader(s, hash), s.db.tokens[hash])), Step(t, Check),
                  AfterCheck(s, t, hash, now, policy))
  {
    assert End(Only(s, t, RefreshHeld(hash, now, policy, Reader(s, hash), s.db.tokens[hash])), t) == s;
  }

  lemma CommitStage(s: Sys, t: TxId, hash: TokenHash, now: int, policy: SessionPolicy, successor: TokenHash)
    requires Inv(s) && s.txs == map[] && successor !in s.family
    requires ReadToken(s.db, hash, now).Usable? && s.db.tokens[hash].session in s.db.sessions
    ensures Refreshes(s, Apply(AfterCheck(s, t, hash, now, policy), Step(t, CommitRefresh(successor))), t, hash, now,
                      policy, successor)
  {
    var checked := AfterCheck(s, t, hash, now, policy);
    assert End(checked, t) == s;
  }

  lemma GrantedRefresh(s: Sys, t: TxId, hash: TokenHash, now: int, policy: SessionPolicy, successor: TokenHash)
    requires Inv(s) && s.txs == map[] && now <= s.clock && successor !in s.family
    requires ReadToken(s.db, hash, now).Usable? && s.db.tokens[hash].session in s.db.sessions
    ensures Refreshes(s, Run(s, RefreshActions(t, hash, now, policy, successor)), t, hash, now, policy, successor)
  {
    hide Inv, Apply, Refreshes, AfterCheck;
    var actions := RefreshActions(t, hash, now, policy, successor);
    var begun := Only(s, t, RefreshBegun(hash, now, policy));
    var read := Only(s, t, RefreshRead(hash, now, policy, Reader(s, hash)));
    var shared := Only(s, t, RefreshShared(hash, now, policy, Reader(s, hash)));
    var held := Only(s, t, RefreshHeld(hash, now, policy, Reader(s, hash), s.db.tokens[hash]));
    var checked := AfterCheck(s, t, hash, now, policy);
    BeginStage(s, t, hash, now, policy);
    ReadStage(s, t, hash, now, policy);
    LockStage(s, t, hash, now, policy);
    CheckStage(s, t, hash, now, policy);
    CommitStage(s, t, hash, now, policy, successor);
    RunFour(s, actions, begun, read, shared, held);
    RunHead(held, actions[4..], checked);
    assert actions[4..][1..] == actions[5..];
    RunHead(checked, actions[5..], Apply(checked, actions[5]));
    assert actions[5..][1..] == [];
  }

  lemma RefusedRefresh(s: Sys, t: TxId, hash: TokenHash, now: int, policy: SessionPolicy, successor: TokenHash)
    requires Inv(s) && s.txs == map[] && now <= s.clock && successor !in s.family
    requires !ReadToken(s.db, hash, now).Usable? || s.db.tokens[hash].session !in s.db.sessions
    ensures Refreshes(s, Run(s, RefreshActions(t, hash, now, policy, successor)), t, hash, now, policy, successor)
  {
    hide Inv, Apply;
    var actions := RefreshActions(t, hash, now, policy, successor);
    var begun := Only(s, t, RefreshBegun(hash, now, policy));
    var read := AfterRead(s, t, hash, now, policy);
    BeginStage(s, t, hash, now, policy);
    ReadStage(s, t, hash, now, policy);
    Stopped(read, t, successor);
    RunFour(s, actions, begun, read, read, read);
    RunHead(read, actions[4..], read);
    assert actions[4..][1..] == actions[5..];
    RunHead(read, actions[5..], read);
    assert actions[5..][1..] == [];
  }

  /** An uninterrupted refresh changes the tables, and hands out a token, as the atomic one does. */
  lemma UninterruptedRefresh(s: Sys, t: TxId, hash: TokenHash, now: int, policy: SessionPolicy, successor: TokenHash)
    requires Inv(s) && s.txs == map[] && now <= s.clock && successor !in s.family
    ensures Refreshes(s, Run(s, RefreshActions(t, hash, now, policy, successor)), t, hash, now, policy, successor)
  {
    if ReadToken(s.db, hash, now).Usable? && s.db.tokens[hash].session in s.db.sessions {
      GrantedRefresh(s, t, hash, now, policy, successor);
    } else {
      RefusedRefresh(s, t, hash, now, policy, successor);
    }
  }

  lemma SwitchBeginStage(s: Sys, t: TxId, user: UserId, id: SessionId, organization: OrganizationId, now: int,
                         policy: SessionPolicy)
    requires s.txs == map[] && now <= s.clock
    ensures Leads(s, BeginSwitch(t, user, id, organization, now, policy),
                  Only(s, t, SwitchBegun(user, id, organization, now, policy)))
    ensures Leads(Only(s, t, SwitchBegun(user, id, organization, now, policy)), Step(t, LockShared),
                  Only(s, t, SwitchShared(user, id, organization, now, policy)))
  {
  }

  lemma SwitchCheckStage(s: Sys, t: TxId, user: UserId, id: SessionId, organization: OrganizationId, now: int,
                         policy: SessionPolicy)
    requires s.txs == map[]
    ensures Leads(Only(s, t, SwitchShared(user, id, organization, now, policy)), Step(t, Check),
                  if id !in s.db.sessions || !Active(s.db.sessions[id], now) || s.db.sessions[id].user != user then s
                  else Only(s, t, SwitchChecked(user, id, organization, now, policy)))
  {
    assert End(Only(s, t, SwitchShared(user, id, organization, now, policy)), t) == s;
  }

  lemma SwitchDeleteStage(s: Sys, t: TxId, user: UserId, id: SessionId, organization: OrganizationId, now: int,
                          policy: SessionPolicy)
    requires s.txs == map[]
    requires id in s.db.sessions && Active(s.db.sessions[id], now) && s.db.sessions[id].user == user
    ensures Leads(Only(s, t, SwitchChecked(user, id, organization, now, policy)), Step(t, Delete),
                  Only(s, t, SwitchDeleting(user, id, organization, now, policy, TokensOf(s.db, {id}))))
  {
  }

  lemma SwitchCommitStage(s: Sys, t: TxId, user: UserId, id: SessionId, organization: OrganizationId, now: int,
                          policy: SessionPolicy, successor: TokenHash)
    requires s.txs == map[] && successor !in s.family
    requires id in s.db.sessions && Active(s.db.sessions[id], now) && s.db.sessions[id].user == user
    ensures var doomed := TokensOf(s.db, {id});
            Leads(Only(s, t, SwitchDeleting(user, id, organization, now, policy, doomed)),
                  Step(t, CommitSwitch(successor)),
                  s.(issued := s.issued + [Issued(id, user, now)], family := s.family[successor := id],
                     db := SwitchOrganization(s.db, id, organization, doomed, successor, now, policy)))
  {
    assert End(Only(s, t, SwitchDeleting(user, id, organization, now, policy, TokensOf(s.db, {id}))), t) == s;
  }

  /** An uninterrupted organization switch is the atomic one. */
  lemma UninterruptedSwitch(s: Sys, t: TxId, user: UserId, id: SessionId, organization: OrganizationId, now: int,
                            policy: SessionPolicy, successor: TokenHash)
    requires Inv(s) && s.txs == map[] && now <= s.clock && successor !in s.family
    ensures var s' := Run(s, SwitchActions(t, user, id, organization, now, policy, successor));
            var (db, outcome) := Atomic.Switched(s.db, user, id, organization, true, successor, now, policy);
            && s'.db == db && s'.txs == map[]
            && s'.issued == (if outcome.Ok? then s.issued + [Issued(id, user, now)] else s.issued)
  {
    hide Apply;
    var actions := SwitchActions(t, user, id, organization, now, policy, successor);
    var begun := Only(s, t, SwitchBegun(user, id, organization, now, policy));
    var shared := Only(s, t, SwitchShared(user, id, organization, now, policy));
    SwitchBeginStage(s, t, user, id, organization, now, policy);
    SwitchCheckStage(s, t, user, id, organization, now, policy);
    if id !in s.db.sessions || !Active(s.db.sessions[id], now) || s.db.sessions[id].user != user {
      Stopped(s, t, successor);
      RunFour(s, actions, begun, shared, s, s);
      RunHead(s, actions[4..], s);
      assert actions[4..][1..] == [];
    } else {
      var checked := Only(s, t, SwitchChecked(user, id, organization, now, policy));
      var deleting := Only(s, t, SwitchDeleting(user, id, organization, now, policy, TokensOf(s.db, {id})));
      SwitchDeleteStage(s, t, user, id, organization, now, policy);
      SwitchCommitStage(s, t, user, id, organization, now, policy, successor);
      RunFour(s, actions, begun, shared, checked, deleting);
      RunHead(deleting, actions[4..], Apply(deleting, actions[4]));
      assert actions[4..][1..] == [];
    }
  }

  function CreateActions(t: TxId, id: SessionId, hash: TokenHash, user: UserId, organization: OrganizationId, now: int,
                         policy: SessionPolicy): seq<Action> {
    [BeginCreate(t, user, organization, now, policy), Step(t, LockShared), Step(t, CommitCreate(id, hash))]
  }

  lemma CreateBeginStage(s: Sys, t: TxId, user: UserId, organization: OrganizationId, now: int, policy: SessionPolicy)
    requires s.txs == map[] && now <= s.clock
    ensures Leads(s, BeginCreate(t, user, organization, now, policy),
                  Only(s, t, CreateBegun(user, organization, now, policy)))
    ensures Leads(Only(s, t, CreateBegun(user, organization, now, policy)), Step(t, LockShared),
                  Only(s, t, CreateShared(user, organization, now, policy)))
  {
  }

  lemma CreateCommitStage(s: Sys, t: TxId, id: SessionId, hash: TokenHash, user: UserId, organization: OrganizationId,
                          now: int, policy: SessionPolicy)
    requires s.txs == map[] && id !in s.owner && hash !in s.family
    ensures Leads(Only(s, t, CreateShared(user, organization, now, policy)), Step(t, CommitCreate(id, hash)),
                  s.(issued := s.issued + [Issued(id, user, now)], owner := s.owner[id := user],
                     family := s.family[hash := id],
                     db := OpenSession(s.db, id, hash, user, organization, now, s.clock, policy)))
  {
    assert End(Only(s, t, CreateShared(user, organization, now, policy)), t) == s;
  }

  /** An uninterrupted creation is the atomic one. */
  lemma UninterruptedCreate(s: Sys, t: TxId, id: SessionId, hash: TokenHash, user: UserId, organization: OrganizationId,
                            now: int, policy: SessionPolicy)
    requires Inv(s) && s.txs == map[] && now <= s.clock && id !in s.owner && hash !in s.family
    ensures var s' := Run(s, CreateActions(t, id, hash, user, organization, now, policy));
            (s'.db, Ok(Atomic.Grant(id, hash))) ==
              Atomic.Created(s.db, id, hash, user, organization, true, now, s.clock, policy) &&
            s'.txs == map[] && s'.issued == s.issued + [Issued(id, user, now)]
  {
    hide Apply, OpenSession;
    var actions := CreateActions(t, id, hash, user, organization, now, policy);
    var begun := Only(s, t, CreateBegun(user, organization, now, policy));
    var shared := Only(s, t, CreateShared(user, organization, now, policy));
    CreateBeginStage(s, t, user, organization, now, policy);
    CreateCommitStage(s, t, id, hash, user, organization, now, policy);
    RunHead(s, actions, begun);
    RunHead(begun, actions[1..], shared);
    assert actions[1..][1..] == actions[2..];
    RunHead(shared, actions[2..], Apply(shared, actions[2]));
    assert actions[2..][1..] == [];
  }

  // The revoking transactions

  function RevokeActions(t: TxId, cause: Cause, ok: bool, landed: set<SessionId>): seq<Action> {
    [BeginRevoke(t, cause), Step(t, Read), Step(t, LockExclusive), Step(t, ReadClock),
     Step(t, WriteMarkers(ok, landed)),
     Step(t, CommitRevoke)]
  }

  /** The tables after the atomic revocation of this kind; only that of a reused token survives a failed
      marker write. */
  function RevokedAtOnce(db: Tables, cause: Cause, clock: int, ok: bool): Tables {
    match cause
    case Reuse(id, observedAt) => Atomic.ReuseTx(db, id, observedAt, ok, true).0
    case Logout(hash) => Atomic.LoggedOut(db, hash, clock, ok)
    case RevokeOne(user, id, now) => Atomic.OneRevoked(db, user, id, now, ok)
    case RevokeOthers(user, keep, now) => Atomic.OthersRevoked(db, user, keep, now, ok)
    case RevokeAll(user) => Atomic.AllRevoked(db, user, clock, ok)
  }

  function MarkerTime(clock: int, cause: Cause): int {
    match cause
    case Reuse(_, observedAt) => Max(clock, observedAt)
    case RevokeOne(_, _, now) => Max(clock, now)
    case RevokeOthers(_, _, now) => Max(clock, now)
    case _ => clock
  }

  function Targets(db: Tables, cause: Cause): set<SessionId> {
    match cause
    case Reuse(id, _) => {id}
    case Logout(hash) => if hash in db.tokens then {db.tokens[hash].session} else {}
    case RevokeOne(_, id, _) => {id}
    case RevokeOthers(user, keep, now) => ActiveSessionsOf(db, user, now) - {keep}
    case RevokeAll(_) => {}
  }

  function Timed(s: Sys, cause: Cause, user: UserId): Tx {
    RevokeTimed(cause, user, MarkerTime(s.clock, cause), Targets(s.db, cause))
  }

  lemma RevokeBeginStage(s: Sys, t: TxId, cause: Cause)
    requires s.txs == map[] && CauseTimely(cause, s.clock)
    ensures Leads(s, BeginRevoke(t, cause), Only(s, t, RevokeBegun(cause)))
    ensures Leads(Only(s, t, RevokeBegun(cause)), Step(t, Read),
                  if ReadCause(s.db, cause).None? then s
                  else Only(s, t, RevokeRead(cause, ReadCause(s.db, cause).value)))
  {
    hide ReadCause;
    assert End(Only(s, t, RevokeBegun(cause)), t) == s;
  }

  lemma RevokeLockStage(s: Sys, t: TxId, cause: Cause, user: UserId)
    requires s.txs == map[]
    ensures Leads(Only(s, t, RevokeRead(cause, user)), Step(t, LockExclusive), Only(s, t, RevokeLocked(cause, user)))
  {
  }

  lemma RevokeClockStage(s: Sys, t: TxId, cause: Cause)
    requires s.txs == map[] && ReadCause(s.db, cause).Some?
    ensures var user := ReadCause(s.db, cause).value;
            Leads(Only(s, t, RevokeLocked(cause, user)), Step(t, ReadClock), Only(s, t, Timed(s, cause, user)))
  {
    hide ActiveSessionsOf;
  }

  /** The state after the marker writes. */
  function AfterMarks(s: Sys, t: TxId, cause: Cause, user: UserId, ok: bool, landed: set<SessionId>): Sys {
    WriteMarkersStep(Only(s, t, Timed(s, cause, user)), t, ok, landed)
  }

  lemma RevokeMarkStage(s: Sys, t: TxId, cause: Cause, user: UserId, ok: bool, landed: set<SessionId>)
    requires s.txs == map[]
    ensures var after := AfterMarks(s, t, cause, user, ok, landed);
            && Leads(Only(s, t, Timed(s, cause, user)), Step(t, WriteMarkers(ok, landed)), after)
            && after.db == s.db
            && after.txs == if ok || cause.Reuse?
                 then map[t := RevokeMarked(cause, user, MarkerTime(s.clock, cause), Targets(s.db, cause), ok)]
                 else map[]
  {
    hide Raise;
  }

  lemma RevokeCommitStage(s: Sys, t: TxId, tx: Tx)
    requires s.txs == map[t := tx] && tx.RevokeMarked?
    ensures var after := Apply(s, Step(t, CommitRevoke));
            && after.txs == map[]
            && after.db == DeleteTokens(Revoke(s.db, RevokedBy(s.db, tx.cause, tx.user, tx.targets),
                                               RevokedAt(tx.cause, tx.markerAt)),
                                        Doomed(s.db, tx.cause, tx.user))
  {
    hide DeleteTokens, Revoke, RevokedBy, Doomed;
  }

  lemma NoneDeleted(db: Tables)
    ensures DeleteTokens(db, {}) == db
  {
  }

  lemma AtOnce(db: Tables, cause: Cause, clock: int, ok: bool)
    requires ReadCause(db, cause).Some? && (ok || cause.Reuse?)
    ensures var user := ReadCause(db, cause).value;
            RevokedAtOnce(db, cause, clock, ok) ==
              DeleteTokens(Revoke(db, RevokedBy(db, cause, user, Targets(db, cause)),
                                  RevokedAt(cause, MarkerTime(clock, cause))),
                           Doomed(db, cause, user))
  {
    var user := ReadCause(db, cause).value;
    hide DeleteTokens, Revoke, TokensOf, ActiveSessionsOf, UnrevokedSessionsOf, SessionsOf;
    NoneDeleted(Revoke(db, RevokedBy(db, cause, user, Targets(db, cause)), RevokedAt(cause, MarkerTime(clock, cause))));
  }

  lemma NotAtOnce(db: Tables, cause: Cause, clock: int, ok: bool)
    requires ReadCause(db, cause).None? || (!ok && !cause.Reuse?)
    ensures RevokedAtOnce(db, cause, clock, ok) == db
  {
  }

  lemma Absent(s: Sys, t: TxId, op: Op)
    requires t !in s.txs
    ensures Leads(s, Step(t, op), s)
  {
  }

  /** Each of the five revocations, run without interference, is the atomic one. */
  lemma UninterruptedRevoke(s: Sys, t: TxId, cause: Cause, ok: bool, landed: set<SessionId>)
    requires s.txs == map[] && CauseTimely(cause, s.clock)
    ensures var s' := Run(s, RevokeActions(t, cause, ok, landed));
            s'.db == RevokedAtOnce(s.db, cause, s.clock, ok) && s'.txs == map[] && s'.issued == s.issued
  {
    hide Apply, ReadCause, RevokedAtOnce, WriteMarkersStep, Timed, MarkerTime, Targets, CauseTimely;
    var actions := RevokeActions(t, cause, ok, landed);
    var begun := Only(s, t, RevokeBegun(cause));
    RevokeBeginStage(s, t, cause);
    assert actions[4..][0] == actions[4] && actions[4..][1..] == actions[5..] && actions[5..][1..] == [];
    if ReadCause(s.db, cause).None? {
      NotAtOnce(s.db, cause, s.clock, ok);
      Absent(s, t, LockExclusive);
      Absent(s, t, ReadClock);
      Absent(s, t, WriteMarkers(ok, landed));
      Absent(s, t, CommitRevoke);
      RunFour(s, actions, begun, s, s, s);
      RunHead(s, actions[4..], s);
      RunHead(s, actions[5..], s);
    } else {
      var user := ReadCause(s.db, cause).value;
      var timed := Only(s, t, Timed(s, cause, user));
      var marked := AfterMarks(s, t, cause, user, ok, landed);
      RevokeLockStage(s, t, cause, user);
      RevokeClockStage(s, t, cause);
      RevokeMarkStage(s, t, cause, user, ok, landed);
      RunFour(s, actions, begun, Only(s, t, RevokeRead(cause, user)), Only(s, t, RevokeLocked(cause, user)), timed);
      RunHead(timed, actions[4..], marked);
      RunHead(marked, actions[5..], Apply(marked, actions[5]));
      Finish(s, t, cause, ok, landed);
    }
  }

  /** The commit, or what is left when a failed marker write ended the transaction. */
  lemma Finish(s: Sys, t: TxId, cause: Cause, ok: bool, landed: set<SessionId>)
    requires s.txs == map[] && ReadCause(s.db, cause).Some?
    ensures var marked := AfterMarks(s, t, cause, ReadCause(s.db, cause).value, ok, landed);
            var s' := Apply(marked, Step(t, CommitRevoke));
            s'.db == RevokedAtOnce(s.db, cause, s.clock, ok) && s'.txs == map[] && s'.issued == s.issued
  {
    var user := ReadCause(s.db, cause).value;
    var marked := AfterMarks(s, t, cause, user, ok, landed);
    RevokeMarkStage(s, t, cause, user, ok, landed);
    IssuesNothing(marked, t);
    hide Apply, ReadCause, RevokedAtOnce, WriteMarkersStep, MarkerTime, Targets, DeleteTokens, Revoke, RevokedBy;
    hide Doomed, RevokedAt;
    if ok || cause.Reuse? {
      RevokeCommitStage(marked, t, marked.txs[t]);
      AtOnce(s.db, cause, s.clock, ok);
    } else {
      NotAtOnce(s.db, cause, s.clock, ok);
      Absent(marked, t, CommitRevoke);
    }
  }

  lemma IssuesNothing(s: Sys, t: TxId)
    ensures Apply(s, Step(t, CommitRevoke)).issued == s.issued
  {
    hide DeleteTokens, Revoke, RevokedBy, Doomed;
  }
}
