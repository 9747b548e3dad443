/** Which sessions a revocation is about: what the transactions of SessionFencing collect under the
    user's row lock is still right when they commit. */
module SessionTargets {
  import opened Wrappers
  import opened SessionData
  import opened SessionFencing

  /** A session that RevokeOtherUserSessions must reach. */
  ghost predicate Other(db: Tables, user: UserId, keep: SessionId, now: int, id: SessionId) {
    && id in db.sessions && id != keep
    && db.sessions[id].user == user && db.sessions[id].revokedAt == None && now < db.sessions[id].expiresAt
  }

  /** A revocation names one session, or all other active ones of the user, or the user. */
  ghost predicate Aimed(s: Sys, tx: Tx) {
    tx.RevokeTimed? || tx.RevokeMarked? ==>
      match tx.cause
      case Reuse(id, _) => tx.targets == {id}
      case RevokeOne(_, id, _) => tx.targets == {id}
      case Logout(hash) => hash in s.family && tx.targets == {s.family[hash]}
      case RevokeAll(_) => tx.targets == {}
      case RevokeOthers(user, keep, now) =>
        && user == tx.user
        && forall id <- s.db.sessions :: id in tx.targets <==> Other(s.db, user, keep, now, id)
  }

  ghost predicate AllAimed(s: Sys) {
    forall t <- s.txs :: Aimed(s, s.txs[t])
  }

  /** A step changes no session of the user but in its organization, and may remove some. */
  ghost predicate Untouched(s: Sys, s': Sys, user: UserId) {
    forall id <- s'.db.sessions :: s'.db.sessions[id].user == user ==>
      id in s.db.sessions && s'.db.sessions[id] == s.db.sessions[id].(organization := s'.db.sessions[id].organization)
  }

  ghost predicate UsersKept(s: Sys, s': Sys) {
    && (forall id <- s'.db.sessions :: id in s.db.sessions ==> s'.db.sessions[id].user == s.db.sessions[id].user)
    && (forall h <- s.family :: h in s'.family && s'.family[h] == s.family[h])
  }

  lemma AimedKept(s: Sys, s': Sys, tx: Tx)
    requires Aimed(s, tx) && UsersKept(s, s')
    requires ExclusiveLock(tx).Some? ==> Untouched(s, s', ExclusiveLock(tx).value)
    requires forall id <- s'.db.sessions :: id !in s.db.sessions ==>
      (tx.RevokeTimed? || tx.RevokeMarked? ==> id !in tx.targets)
    ensures Aimed(s', tx)
  {
  }

  /** Only what `t` is up to changes, and what it is aimed at stays right. */
  ghost predicate Quiet(s: Sys, s': Sys, t: TxId) {
    && s'.db == s.db && s'.family == s.family
    && (forall o <- s'.txs :: o != t ==> o in s.txs && s'.txs[o] == s.txs[o])
    && (t in s'.txs ==> Aimed(s, s'.txs[t]))
  }

  lemma QuietAimed(s: Sys, s': Sys, t: TxId)
    requires Inv(s) && AllAimed(s) && Quiet(s, s', t)
    ensures AllAimed(s')
  {
    hide Inv;
    forall o <- s'.txs ensures Aimed(s', s'.txs[o]) {
      AimedKept(s, s', s'.txs[o]);
    }
  }

  lemma ReadClockAimed(s: Sys, t: TxId)
    requires t in s.txs && s.txs[t].RevokeLocked?
    requires TablesRecorded(s) && CauseRecorded(s, s.txs[t].cause, s.txs[t].user)
    ensures var s' := ReadClockStep(s, t); t in s'.txs ==> Aimed(s, s'.txs[t])
  {
  }

  /** A commit by `t` is about sessions of the user whose row it holds. */
  lemma CommitAimed(s: Sys, s': Sys, t: TxId)
    requires Inv(s) && AllAimed(s) && t in s.txs && s'.txs == s.txs - {t}
    requires UsersKept(s, s') && forall id <- s'.db.sessions :: id in s.db.sessions || id !in s.owner
    requires forall user :: !HoldsShared(s.txs[t], user) && !HoldsExclusive(s.txs[t], user) ==> Untouched(s, s', user)
    ensures AllAimed(s')
  {
    forall o <- s'.txs ensures Aimed(s', s'.txs[o]) {
      TxAt(s, o);
      assert LocksExclude(s);
      hide Inv, LocksExclude, TablesRecorded, RevokedStay;
      AimedKept(s, s', s.txs[o]);
    }
  }

  lemma RotationSessions(db: Tables, hash: TokenHash, successor: TokenHash, now: int, policy: SessionPolicy,
                         expiresAt: int)
    requires hash in db.tokens
    ensures RotateToken(db, hash, successor, now, policy, expiresAt).sessions == db.sessions
  {
  }

  lemma RefreshUntouched(s: Sys, t: TxId, successor: TokenHash)
    requires Inv(s) && t in s.txs
    ensures var s' := CommitRefreshStep(s, t, successor);
      && s'.db.sessions == s.db.sessions && UsersKept(s, s') && (s' == s || s'.txs == s.txs - {t})
  {
    hide Inv, RotateToken, RotatesAtCommit, ShouldRotate;
    var tx := s.txs[t];
    if tx.RefreshChecked? && tx.hash in s.db.tokens {
      RotationSessions(s.db, tx.hash, successor, tx.now, tx.policy, tx.session.expiresAt);
    }
  }

  lemma SwitchSessions(db: Tables, id: SessionId, organization: OrganizationId, doomed: set<TokenHash>,
                       successor: TokenHash, now: int, policy: SessionPolicy)
    requires id in db.sessions
    ensures SwitchOrganization(db, id, organization, doomed, successor, now, policy).sessions ==
      db.sessions[id := db.sessions[id].(organization := organization)]
  {
  }

  lemma SwitchUntouched(s: Sys, t: TxId, successor: TokenHash)
    requires Inv(s) && t in s.txs
    ensures var s' := CommitSwitchStep(s, t, successor);
      && s'.db.sessions.Keys == s.db.sessions.Keys && UsersKept(s, s') && (s' == s || s'.txs == s.txs - {t})
      && (forall user :: Untouched(s, s', user))
  {
    hide Inv, SwitchOrganization, RowsAvailableTo;
    var tx := s.txs[t];
    if tx.SwitchDeleting? && tx.id in s.db.sessions {
      SwitchSessions(s.db, tx.id, tx.organization, tx.doomed, successor, tx.now, tx.policy);
    }
  }

  lemma CreateUntouched(s: Sys, t: TxId, id: SessionId, hash: TokenHash)
    requires Inv(s) && t in s.txs
    ensures var s' := CommitCreateStep(s, t, id, hash);
      && (forall i <- s'.db.sessions :: i in s.db.sessions || i !in s.owner)
      && UsersKept(s, s') && (s' == s || s'.txs == s.txs - {t})
      && (forall user :: !HoldsShared(s.txs[t], user) ==> Untouched(s, s', user))
  {
    TxAt(s, t);
    hide Inv, RevokedStay;
  }

  lemma RevokeUntouched(s: Sys, t: TxId)
    requires Inv(s) && t in s.txs
    ensures var s' := CommitRevokeStep(s, t);
      && s'.db.sessions.Keys == s.db.sessions.Keys && UsersKept(s, s') && (s' == s || s'.txs == s.txs - {t})
      && (forall user :: !HoldsExclusive(s.txs[t], user) ==> Untouched(s, s', user))
  {
    TxAt(s, t);
    hide Inv, RevokedStay;
  }

  /** A refresh changes no session. */
  lemma SessionsAimed(s: Sys, s': Sys, t: TxId)
    requires Inv(s) && AllAimed(s) && t in s.txs && s'.txs == s.txs - {t}
    requires UsersKept(s, s') && s'.db.sessions == s.db.sessions
    ensures AllAimed(s')
  {
    hide Inv;
    forall o <- s'.txs ensures Aimed(s', s'.txs[o]) {
      AimedKept(s, s', s.txs[o]);
    }
  }

  lemma ReadAimed(s: Sys, t: TxId)
    requires t in s.txs && Aimed(s, s.txs[t])
    ensures Quiet(s, ReadStep(s, t), t)
  {
    hide ReadToken, ReadCause;
  }

  lemma SharedAimed(s: Sys, t: TxId)
    requires t in s.txs && Aimed(s, s.txs[t])
    ensures Quiet(s, LockSharedStep(s, t), t)
  {
    hide SharedAvailable;
  }

  lemma RowAimed(s: Sys, t: TxId)
    requires t in s.txs && Aimed(s, s.txs[t])
    ensures Quiet(s, LockRowStep(s, t), t)
  {
    hide ReadToken, RowAvailable;
  }

  lemma ChecksAimed(s: Sys, t: TxId)
    requires t in s.txs && Aimed(s, s.txs[t])
    ensures Quiet(s, CheckStep(s, t), t) && Quiet(s, DeleteStep(s, t), t) && Quiet(s, LockExclusiveStep(s, t), t)
  {
    hide Active, SessionRowAvailable, ExclusiveAvailable, TokensOf;
  }

  lemma MarkersAimed(s: Sys, t: TxId, ok: bool, landed: set<SessionId>)
    requires t in s.txs && Aimed(s, s.txs[t])
    ensures Quiet(s, WriteMarkersStep(s, t, ok, landed), t) && Quiet(s, End(s, t), t)
  {
    hide Raise;
  }

  lemma ClockAimed(s: Sys, t: TxId)
    requires Inv(s) && t in s.txs && Aimed(s, s.txs[t])
    ensures Quiet(s, ReadClockStep(s, t), t)
  {
    TxAt(s, t);
    if s.txs[t].RevokeLocked? {
      ReadClockAimed(s, t);
    }
    hide Inv, Aimed, ActiveSessionsOf, TablesRecorded, RevokedStay;
  }

  lemma QuietStep(s: Sys, t: TxId, op: Op)
    requires Inv(s) && t in s.txs && Aimed(s, s.txs[t])
    requires !op.CommitRefresh? && !op.CommitSwitch? && !op.CommitCreate? && !op.CommitRevoke?
    ensures Quiet(s, Advance(s, t, op), t)
  {
    hide Inv, Aimed, Quiet, ReadStep, LockSharedStep, LockRowStep, CheckStep, DeleteStep, LockExclusiveStep,
      ReadClockStep, WriteMarkersStep;
    match op
    case ReadClock => ClockAimed(s, t);
    case WriteMarkers(ok, landed) => MarkersAimed(s, t, ok, landed);
    case Abort => MarkersAimed(s, t, true, {});
    case _ =>
      ReadAimed(s, t);
      SharedAimed(s, t);
      RowAimed(s, t);
      ChecksAimed(s, t);
  }

  lemma StepAimed(s: Sys, t: TxId, op: Op)
    requires Inv(s) && AllAimed(s) && t in s.txs
    ensures AllAimed(Advance(s, t, op))
  {
    assert Aimed(s, s.txs[t]);
    hide Inv, AllAimed, Aimed, Quiet, UsersKept, Untouched, CommitRefreshStep, CommitSwitchStep, CommitCreateStep,
      CommitRevokeStep, ReadStep, LockSharedStep, LockRowStep, CheckStep, DeleteStep, LockExclusiveStep,
      ReadClockStep, WriteMarkersStep;
    var s' := Advance(s, t, op);
    match op
    case CommitRefresh(successor) =>
      RefreshUntouched(s, t, successor);
      if s' != s {
        SessionsAimed(s, s', t);
      }
    case CommitSwitch(successor) =>
      SwitchUntouched(s, t, successor);
      if s' != s {
        CommitAimed(s, s', t);
      }
    case CommitCreate(id, hash) =>
      CreateUntouched(s, t, id, hash);
      if s' != s {
        CommitAimed(s, s', t);
      }
    case CommitRevoke =>
      RevokeUntouched(s, t);
      if s' != s {
        CommitAimed(s, s', t);
      }
    case _ =>
      QuietStep(s, t, op);
      QuietAimed(s, s', t);
  }

  lemma BeginAimed(s: Sys, t: TxId, tx: Tx, timely: bool)
    requires AllAimed(s) && !tx.RevokeTimed? && !tx.RevokeMarked?
    ensures AllAimed(BeginStep(s, t, tx, timely))
  {
    var s' := BeginStep(s, t, tx, timely);
    forall o <- s'.txs ensures Aimed(s', s'.txs[o]) {
      if o in s.txs {
        assert Aimed(s, s.txs[o]);
      }
    }
  }

  lemma RemovalAimed(s: Sys, s': Sys)
    requires Inv(s) && AllAimed(s) && s' == s.(db := s'.db)
    requires forall id <- s'.db.sessions :: id in s.db.sessions && s'.db.sessions[id] == s.db.sessions[id]
    ensures AllAimed(s')
  {
    hide Inv;
    forall o <- s'.txs ensures Aimed(s', s'.txs[o]) {
      AimedKept(s, s', s.txs[o]);
    }
  }

  lemma ApplyAimed(s: Sys, a: Action)
    requires Inv(s) && AllAimed(s)
    ensures AllAimed(Apply(s, a))
  {
    hide Inv, AllAimed, BeginStep, Advance;
    match a
    case Tick(elapsed) => ClockIgnored(s, elapsed);
    case BeginRefresh(t, hash, now, policy) => BeginAimed(s, t, RefreshBegun(hash, now, policy), now <= s.clock);
    case BeginSwitch(t, user, id, organization, now, policy) =>
      BeginAimed(s, t, SwitchBegun(user, id, organization, now, policy), now <= s.clock);
    case BeginCreate(t, user, organization, now, policy) =>
      BeginAimed(s, t, CreateBegun(user, organization, now, policy), now <= s.clock);
    case BeginRevoke(t, cause) => BeginAimed(s, t, RevokeBegun(cause), CauseTimely(cause, s.clock));
    case RemoveSession(id) => RemovalAimed(s, RemoveSessionStep(s, id));
    case RemoveToken(hash) => RemovalAimed(s, RemoveTokenStep(s, hash));
    case Step(t, op) => if t in s.txs { StepAimed(s, t, op); }
  }

  lemma ClockIgnored(s: Sys, elapsed: nat)
    requires AllAimed(s)
    ensures AllAimed(s.(clock := s.clock + elapsed))
  {
    var s' := s.(clock := s.clock + elapsed);
    forall o <- s'.txs ensures Aimed(s', s'.txs[o]) {
      assert Aimed(s, s.txs[o]);
    }
  }

  lemma {:induction false} RunAimed(s: Sys, actions: seq<Action>)
    requires Inv(s) && AllAimed(s)
    ensures AllAimed(Run(s, actions))
    decreases |actions|
  {
    if actions != [] {
      hide Inv, AllAimed, Apply;
      ApplyKept(s, actions[0]);
      ApplyAimed(s, actions[0]);
      RunAimed(Apply(s, actions[0]), actions[1..]);
    }
  }

  // Main results

  lemma ReachableAimed(clock: int, actions: seq<Action>, t: TxId)
    requires t in Run(Init(clock), actions).txs
    ensures var s := Run(Init(clock), actions); Inv(s) && Aimed(s, s.txs[t])
  {
    hide Inv;
    InitOk(clock);
    RunKept(Init(clock), actions);
    RunAimed(Init(clock), actions);
  }

  /** The session that a revocation names. */
  ghost function Named(s: Sys, cause: Cause): SessionId
    requires cause.Reuse? || cause.RevokeOne? || (cause.Logout? && cause.hash in s.family)
  {
    match cause
    case Reuse(id, _) => id
    case RevokeOne(_, id, _) => id
    case Logout(hash) => s.family[hash]
  }

  /** Whatever else runs meanwhile, when a revocation that names a session, or a token of it, commits,
      that session's row is revoked and no other row has changed; if the marker was written, it covers
      every token ever handed out for the session. */
  lemma CommitFencesNamed(clock: int, actions: seq<Action>, t: TxId)
    requires var s := Run(Init(clock), actions);
      t in s.txs && s.txs[t].RevokeMarked? && !s.txs[t].cause.RevokeOthers? && !s.txs[t].cause.RevokeAll?
    ensures var s := Run(Init(clock), actions);
      var s' := Apply(s, Step(t, CommitRevoke));
      var cause := s.txs[t].cause;
      && (cause.Logout? ==> cause.hash in s.family)
      && (var id := Named(s, cause);
          && s'.db.sessions.Keys == s.db.sessions.Keys
          && (forall i <- s.db.sessions :: if i == id then s'.db.sessions[i].revokedAt != None
                                           else s'.db.sessions[i] == s.db.sessions[i])
          && (cause.RevokeOne? ==> forall h <- s'.db.tokens :: s'.db.tokens[h].session != id)
          && (s.txs[t].markerOk ==>
                && SessionFence(id, s.txs[t].markerAt) in s'.fences
                && id in s'.markers && s.txs[t].markerAt <= s'.markers[id]
                && forall k <- s'.issued :: k.session == id ==> k.iat <= s.txs[t].markerAt))
  {
    hide Inv, Apply;
    ReachableAimed(clock, actions, t);
    var s := Run(Init(clock), actions);
    CommitRevokeApplied(s, t);
    NamedFenced(s, t);
  }

  lemma NamedFenced(s: Sys, t: TxId)
    requires Inv(s) && t in s.txs && Aimed(s, s.txs[t]) && s.txs[t].RevokeMarked?
    requires !s.txs[t].cause.RevokeOthers? && !s.txs[t].cause.RevokeAll?
    ensures var s' := CommitRevokeStep(s, t);
      var cause := s.txs[t].cause;
      && (cause.Logout? ==> cause.hash in s.family)
      && (var id := Named(s, cause);
          && s'.db.sessions.Keys == s.db.sessions.Keys
          && (forall i <- s.db.sessions :: if i == id then s'.db.sessions[i].revokedAt != None
                                           else s'.db.sessions[i] == s.db.sessions[i])
          && (cause.RevokeOne? ==> forall h <- s'.db.tokens :: s'.db.tokens[h].session != id)
          && (s.txs[t].markerOk ==>
                && SessionFence(id, s.txs[t].markerAt) in s'.fences
                && id in s'.markers && s.txs[t].markerAt <= s'.markers[id]
                && forall k <- s'.issued :: k.session == id ==> k.iat <= s.txs[t].markerAt))
  {
    TxAt(s, t);
    assert IssuedRecorded(s);
    hide Inv, RevokedStay;
  }

  lemma RaiseIs<K>(markers: map<K, int>, keys: set<K>, at: int)
    ensures var raised := Raise(markers, keys, at);
      && (forall k | k !in keys :: (k in raised <==> k in markers) && (k in markers ==> raised[k] == markers[k]))
      && (forall k <- keys ::
            k in raised && raised[k] == if k in markers && at < markers[k] then markers[k] else at)
  {
  }

  /** The marker writes raise a written session's marker to the instant read under the lock, or leave it if
      it is later, and touch no marker of another session; only a revocation of all sessions writes a
      user's marker, and no other user's. */
  lemma MarkersOnlyOfTargets(s: Sys, t: TxId, ok: bool, landed: set<SessionId>)
    requires t in s.txs && s.txs[t].RevokeTimed?
    ensures var s' := WriteMarkersStep(s, t, ok, landed);
      var tx := s.txs[t];
      && (forall id | tx.cause.RevokeAll? || id !in tx.targets || (!ok && id !in landed) ::
            (id in s'.markers <==> id in s.markers) && (id in s.markers ==> s'.markers[id] == s.markers[id]))
      && (forall id <- tx.targets | !tx.cause.RevokeAll? && (ok || id in landed) ::
            && id in s'.markers
            && s'.markers[id] == if id in s.markers && tx.markerAt < s.markers[id] then s.markers[id] else tx.markerAt)
      && (forall u | !tx.cause.RevokeAll? || u != tx.user ::
            (u in s'.userMarkers <==> u in s.userMarkers)
            && (u in s.userMarkers ==> s'.userMarkers[u] == s.userMarkers[u]))
  {
    hide Raise;
    var tx := s.txs[t];
    RaiseIs(s.markers, if ok then tx.targets else tx.targets * landed, tx.markerAt);
    RaiseIs(s.userMarkers, {tx.user}, tx.markerAt);
  }

  /** Whatever else runs meanwhile, when RevokeOtherUserSessions commits, every session of the user but
      the kept one is revoked and without tokens, and the kept one is as it was; if the markers were
      written, each session that was active for the caller has one, which covers every token ever handed
      out for it. */
  lemma CommitFencesOthers(clock: int, actions: seq<Action>, t: TxId)
    requires var s := Run(Init(clock), actions);
      t in s.txs && s.txs[t].RevokeMarked? && s.txs[t].cause.RevokeOthers?
    ensures var s := Run(Init(clock), actions);
      var s' := Apply(s, Step(t, CommitRevoke));
      var cause := s.txs[t].cause;
      && (forall id <- s'.db.sessions :: s'.db.sessions[id].user == cause.user && id != cause.keep ==>
            s'.db.sessions[id].revokedAt != None && forall h <- s'.db.tokens :: s'.db.tokens[h].session != id)
      && (cause.keep in s.db.sessions ==>
            cause.keep in s'.db.sessions && s'.db.sessions[cause.keep] == s.db.sessions[cause.keep])
      && (s.txs[t].markerOk ==>
            forall id <- s.db.sessions ::
              && s.db.sessions[id].user == cause.user && id != cause.keep
              && s.db.sessions[id].revokedAt == None && cause.now < s.db.sessions[id].expiresAt ==>
              && SessionFence(id, s.txs[t].markerAt) in s'.fences
              && id in s'.markers && s.txs[t].markerAt <= s'.markers[id]
              && forall k <- s'.issued :: k.session == id ==> k.iat <= s.txs[t].markerAt)
  {
    hide Inv, Apply;
    ReachableAimed(clock, actions, t);
    var s := Run(Init(clock), actions);
    CommitRevokeApplied(s, t);
    OthersFenced(s, t);
    OthersRevoked(s, t);
  }

  lemma OthersRevoked(s: Sys, t: TxId)
    requires Inv(s) && t in s.txs && Aimed(s, s.txs[t]) && s.txs[t].RevokeMarked? && s.txs[t].cause.RevokeOthers?
    ensures var s' := CommitRevokeStep(s, t);
      var cause := s.txs[t].cause;
      && (forall id <- s'.db.sessions :: s'.db.sessions[id].user == cause.user && id != cause.keep ==>
            s'.db.sessions[id].revokedAt != None && forall h <- s'.db.tokens :: s'.db.tokens[h].session != id)
      && (cause.keep in s.db.sessions ==>
            cause.keep in s'.db.sessions && s'.db.sessions[cause.keep] == s.db.sessions[cause.keep])
  {
    hide Inv;
  }

  lemma OthersFenced(s: Sys, t: TxId)
    requires Inv(s) && t in s.txs && Aimed(s, s.txs[t]) && s.txs[t].RevokeMarked? && s.txs[t].cause.RevokeOthers?
    ensures var s' := CommitRevokeStep(s, t);
      var cause := s.txs[t].cause;
      s.txs[t].markerOk ==>
      forall id <- s.db.sessions :: Other(s.db, cause.user, cause.keep, cause.now, id) ==>
        && SessionFence(id, s.txs[t].markerAt) in s'.fences
        && id in s'.markers && s.txs[t].markerAt <= s'.markers[id]
        && forall k <- s'.issued :: k.session == id ==> k.iat <= s.txs[t].markerAt
  {
    TxAt(s, t);
    assert IssuedRecorded(s);
    hide Inv, RevokedStay, Revoke, DeleteTokens;
  }
}
