/** When the interleaved transactions of SessionFencing keep one unconsumed refresh token per session,
    and that no token outlives its session. */
module SessionTokens {
  import opened Wrappers
  import opened SessionData
  import opened SessionFencing

  /** The refresh rotates its token and commits. */
  predicate Rotates(s: Sys, t: TxId, successor: TokenHash)
    requires t in s.txs
  {
    var tx := s.txs[t];
    && tx.RefreshChecked? && RotatesAtCommit(tx) && successor !in s.family
    && tx.hash in s.db.tokens && s.db.tokens[tx.hash].consumedAt.None? && tx.token.session in s.db.sessions
  }

  /** It does so although a switch of its session has already chosen the tokens that it will delete. */
  predicate Overlaps(s: Sys, a: Action) {
    && a.Step? && a.op.CommitRefresh? && a.t in s.txs && Rotates(s, a.t, a.op.successor)
    && !SessionRowAvailable(s, s.txs[a.t].token.session)
  }

  /** No refresh overlaps a switch in this way. */
  predicate Apart(s: Sys, actions: seq<Action>)
    decreases |actions|
  {
    actions == [] || (!Overlaps(s, actions[0]) && Apart(Apply(s, actions[0]), actions[1..]))
  }

  /** A switch that commits now leaves an unconsumed token of its session outside the rows it chose. */
  ghost predicate Misses(s: Sys, a: Action) {
    && a.Step? && a.op.CommitSwitch? && a.t in s.txs && s.txs[a.t].SwitchDeleting? && s.txs[a.t].id in s.db.sessions
    && a.op.successor !in s.family && RowsAvailableTo(s, a.t, s.txs[a.t].doomed)
    && !Reaches(s.db, s.txs[a.t])
  }

  ghost predicate Reaches(db: Tables, tx: Tx) {
    tx.SwitchDeleting? ==> forall h :: Unconsumed(db, h, tx.id) ==> h in tx.doomed
  }

  /** Each switch under way reaches every unconsumed token, and each session has at most one such switch. */
  ghost predicate SwitchesReach(s: Sys) {
    && (forall t <- s.txs :: Reaches(s.db, s.txs[t]))
    && (forall t <- s.txs, o <- s.txs ::
          s.txs[t].SwitchDeleting? && s.txs[o].SwitchDeleting? && t != o ==> s.txs[t].id != s.txs[o].id)
  }

  // What a step does to the open transactions

  /** The transactions with data that later commits rely on come from their own steps. */
  ghost predicate NewTx(s: Sys, t: TxId, tx: Tx)
    requires t in s.txs
  {
    match tx
    case SwitchDeleting(_, id, _, _, _, doomed) => SessionRowAvailable(s, id) && doomed == TokensOf(s.db, {id})
    case RefreshChecked(_, _, _, _, token, session) =>
      token.session in s.db.sessions && session == s.db.sessions[token.session]
    case CreateShared(_, _, _, policy) => s.txs[t].CreateBegun? && s.txs[t].policy == policy
    case CreateBegun(_, _, _, _) => false
    case RevokeTimed(_, _, markerAt, _) => s.clock <= markerAt
    case RevokeMarked(cause, user, markerAt, targets, _) => s.txs[t] == RevokeTimed(cause, user, markerAt, targets)
    case _ => true
  }

  ghost predicate OneTxMoved(s: Sys, s': Sys, t: TxId)
    requires t in s.txs
  {
    && (forall o <- s'.txs :: o in s.txs && (o == t || s'.txs[o] == s.txs[o]))
    && (t in s'.txs && s'.txs[t] != s.txs[t] ==> NewTx(s, t, s'.txs[t]))
  }

  lemma CommitMoves(s: Sys, t: TxId, op: Op)
    requires t in s.txs && Commits(op)
    ensures OneTxMoved(s, Advance(s, t, op), t)
  {
    hide RotateToken, SwitchOrganization, OpenSession, Revoke, DeleteTokens, NewTx;
  }

  lemma ReadMoves(s: Sys, t: TxId)
    requires t in s.txs
    ensures OneTxMoved(s, ReadStep(s, t), t)
  {
    hide ReadToken, ReadCause;
  }

  lemma SharedMoves(s: Sys, t: TxId)
    requires t in s.txs
    ensures OneTxMoved(s, LockSharedStep(s, t), t)
  {
    hide SharedAvailable;
  }

  lemma RowMoves(s: Sys, t: TxId)
    requires t in s.txs
    ensures OneTxMoved(s, LockRowStep(s, t), t)
  {
    hide RowAvailable, ReadToken;
  }

  lemma ExclusiveMoves(s: Sys, t: TxId)
    requires t in s.txs
    ensures OneTxMoved(s, LockExclusiveStep(s, t), t)
  {
    hide ExclusiveAvailable;
  }

  lemma CheckMoves(s: Sys, t: TxId)
    requires t in s.txs
    ensures OneTxMoved(s, CheckStep(s, t), t)
  {
    hide SessionRowAvailable, TokensOf;
  }

  lemma DeleteMoves(s: Sys, t: TxId)
    requires t in s.txs
    ensures OneTxMoved(s, DeleteStep(s, t), t)
  {
    hide SessionRowAvailable, TokensOf;
  }

  lemma ClockPuts(s: Sys, t: TxId)
    requires t in s.txs
    ensures var s' := ReadClockStep(s, t);
            s' == s || s'.txs == s.txs - {t} ||
            (t in s'.txs && s'.txs == s.txs[t := s'.txs[t]] && s'.txs[t].RevokeTimed? && s.clock <= s'.txs[t].markerAt)
  {
    hide ActiveSessionsOf;
  }

  lemma ClockMoves(s: Sys, t: TxId)
    requires t in s.txs
    ensures OneTxMoved(s, ReadClockStep(s, t), t)
  {
    ClockPuts(s, t);
    hide ReadClockStep;
  }

  lemma MarkersPut(s: Sys, t: TxId, ok: bool, landed: set<SessionId>)
    requires t in s.txs
    ensures var s' := WriteMarkersStep(s, t, ok, landed);
            s' == s || s'.txs == s.txs - {t} ||
            (t in s'.txs && s'.txs == s.txs[t := s'.txs[t]] && NewTx(s, t, s'.txs[t]))
  {
    hide Raise;
  }

  lemma MarkersMove(s: Sys, t: TxId, ok: bool, landed: set<SessionId>)
    requires t in s.txs
    ensures OneTxMoved(s, WriteMarkersStep(s, t, ok, landed), t)
  {
    hide WriteMarkersStep, NewTx;
    MarkersPut(s, t, ok, landed);
  }

  lemma StepMoves(s: Sys, t: TxId, op: Op)
    requires t in s.txs
    ensures OneTxMoved(s, Advance(s, t, op), t)
  {
    if Commits(op) {
      hide OneTxMoved, Advance;
      CommitMoves(s, t, op);
    } else {
      ReadMoves(s, t);
      SharedMoves(s, t);
      RowMoves(s, t);
      ExclusiveMoves(s, t);
      CheckMoves(s, t);
      DeleteMoves(s, t);
      ClockMoves(s, t);
      MarkersMove(s, t, op.WriteMarkers? && op.ok, if op.WriteMarkers? then op.landed else {});
      hide ReadStep, LockSharedStep, LockRowStep, LockExclusiveStep, CheckStep, DeleteStep, ReadClockStep;
      hide WriteMarkersStep;
    }
  }

  // What a step does to the unconsumed tokens

  lemma TableFacts(s: Sys, t: TxId)
    requires Inv(s) && t in s.txs
    ensures TxOk(s, s.txs[t])
    ensures forall h <- s.db.tokens :: h in s.family && s.family[h] == s.db.tokens[h].session && s.family[h] in s.owner
    ensures forall id <- s.db.sessions :: id in s.owner
  {
  }

  lemma RefreshAdds(s: Sys, t: TxId, successor: TokenHash)
    requires Inv(s) && t in s.txs && s.txs[t].RefreshChecked? && OneUnconsumedToken(s.db)
    ensures var s' := CommitRefreshStep(s, t, successor);
            s'.db == s.db || (t !in s'.txs && Rotates(s, t, successor) &&
                              OnlyNow(s.db, s'.db, successor, s.txs[t].token.session))
  {
    TableFacts(s, t);
    hide Inv;
    var tx := s.txs[t];
    if tx.hash in s.db.tokens && s.db.tokens[tx.hash].consumedAt.None? && successor !in s.db.tokens {
      RotateTokenOk(s.db, tx.hash, successor, tx.now, tx.policy, tx.session.expiresAt);
    }
    hide OneUnconsumedToken, OnlyNow, RotateToken;
  }

  lemma SwitchAdds(s: Sys, t: TxId, successor: TokenHash)
    requires t in s.txs && s.txs[t].SwitchDeleting? && Reaches(s.db, s.txs[t])
    ensures var s' := CommitSwitchStep(s, t, successor);
            s'.db == s.db || (t !in s'.txs && OnlyNow(s.db, s'.db, successor, s.txs[t].id))
  {
    var tx := s.txs[t];
    if tx.id in s.db.sessions {
      SwitchOrganizationOk(s.db, tx.id, tx.organization, tx.doomed, successor, tx.now, tx.policy);
    }
    hide OnlyNow, SwitchOrganization;
  }

  lemma CreateAdds(s: Sys, t: TxId, id: SessionId, hash: TokenHash)
    requires Inv(s) && t in s.txs && s.txs[t].CreateShared?
    ensures var s' := CommitCreateStep(s, t, id, hash);
            s'.db == s.db || (t !in s'.txs && id !in s.owner && OnlyNow(s.db, s'.db, hash, id))
  {
    TableFacts(s, t);
    hide Inv;
    var tx := s.txs[t];
    if id !in s.owner {
      OpenSessionOk(s.db, id, hash, tx.user, tx.organization, tx.now, s.clock, tx.policy);
    }
    hide OnlyNow, OpenSession;
  }

  lemma RevokeAdds(s: Sys, t: TxId)
    requires t in s.txs
    ensures NoneAdded(s.db, CommitRevokeStep(s, t).db)
  {
    if s.txs[t].RevokeMarked? {
      var tx := s.txs[t];
      RemovedOk(s.db, RevokedBy(s.db, tx.cause, tx.user, tx.targets), RevokedAt(tx.cause, tx.markerAt),
                Doomed(s.db, tx.cause, tx.user));
      hide NoneAdded, Revoke, DeleteTokens;
    }
  }

  lemma RemovalAdds(s: Sys, a: Action)
    requires !a.Step?
    ensures NoneAdded(s.db, Apply(s, a).db)
  {
    if a.RemoveSession? {
      DeletedOk(s.db, a.id);
    } else if a.RemoveToken? {
      RemovedOk(s.db, {}, 0, {a.hash});
      assert Revoke(s.db, {}, 0) == s.db;
    }
  }

  /** The session that gains a token, when a step adds one: by a rotating refresh, by a switch or by
      a creation. */
  ghost predicate Adds(s: Sys, s': Sys, a: Action, hash: TokenHash, id: SessionId) {
    && a.Step? && a.t in s.txs && a.t !in s'.txs && OnlyNow(s.db, s'.db, hash, id)
    && match a.op
       case CommitRefresh(successor) => Rotates(s, a.t, successor) && id == s.txs[a.t].token.session
       case CommitSwitch(_) => s.txs[a.t].SwitchDeleting? && id == s.txs[a.t].id
       case CommitCreate(_, _) => id !in s.owner
       case _ => false
  }

  lemma CommitAdds(s: Sys, a: Action)
    requires Inv(s) && OneUnconsumedToken(s.db)
    requires a.Step? && a.t in s.txs && Commits(a.op)
    requires a.op.CommitSwitch? && s.txs[a.t].SwitchDeleting? ==> Reaches(s.db, s.txs[a.t])
    ensures var s' := Apply(s, a);
            NoneAdded(s.db, s'.db) || exists hash, id :: Adds(s, s', a, hash, id)
  {
    hide Inv, OneUnconsumedToken, OnlyNow, Reaches, RotatesAtCommit, CommitRefreshStep, CommitSwitchStep;
    hide CommitCreateStep, CommitRevokeStep;
    var tx := s.txs[a.t];
    var s' := Apply(s, a);
    match a.op
    case CommitRefresh(successor) =>
      if tx.RefreshChecked? {
        RefreshAdds(s, a.t, successor);
        assert s'.db == s.db || Adds(s, s', a, successor, tx.token.session);
      } else {
        NothingCommitted(s, a.t, a.op);
      }
    case CommitSwitch(successor) =>
      if tx.SwitchDeleting? {
        SwitchAdds(s, a.t, successor);
        assert s'.db == s.db || Adds(s, s', a, successor, tx.id);
      } else {
        NothingCommitted(s, a.t, a.op);
      }
    case CommitCreate(id, hash) =>
      if tx.CreateShared? {
        CreateAdds(s, a.t, id, hash);
        assert s'.db == s.db || Adds(s, s', a, hash, id);
      } else {
        NothingCommitted(s, a.t, a.op);
      }
    case CommitRevoke => RevokeAdds(s, a.t);
  }

  lemma NothingCommitted(s: Sys, t: TxId, op: Op)
    requires t in s.txs
    requires op.CommitRefresh? ==> !s.txs[t].RefreshChecked?
    requires op.CommitSwitch? ==> !s.txs[t].SwitchDeleting?
    requires op.CommitCreate? ==> !s.txs[t].CreateShared?
    requires op.CommitRefresh? || op.CommitSwitch? || op.CommitCreate?
    ensures Advance(s, t, op).db == s.db
  {
  }

  /** A step that does not miss a token adds none, or adds the only one of its session. */
  lemma StepAdds(s: Sys, a: Action)
    requires Inv(s) && OneUnconsumedToken(s.db)
    requires a.Step? && a.op.CommitSwitch? && a.t in s.txs && s.txs[a.t].SwitchDeleting? ==> Reaches(s.db, s.txs[a.t])
    ensures var s' := Apply(s, a);
            NoneAdded(s.db, s'.db) || exists hash, id :: Adds(s, s', a, hash, id)
  {
    hide Inv, OneUnconsumedToken, Reaches, Adds;
    if !a.Step? {
      RemovalAdds(s, a);
    } else if a.t in s.txs {
      if Commits(a.op) {
        CommitAdds(s, a);
      } else {
        QuietStep(s, a.t, a.op);
        hide Advance;
      }
    }
  }

  // One unconsumed token

  lemma AddsKeeps(s: Sys, s': Sys, a: Action)
    requires OneUnconsumedToken(s.db)
    requires NoneAdded(s.db, s'.db) || exists hash, id :: Adds(s, s', a, hash, id)
    ensures OneUnconsumedToken(s'.db)
  {
    if NoneAdded(s.db, s'.db) {
      NoneAddedKeeps(s.db, s'.db);
    } else {
      var hash, id :| Adds(s, s', a, hash, id);
      OnlyNowKeeps(s.db, s'.db, hash, id);
    }
  }

  lemma MissLeavesTwo(s: Sys, a: Action)
    requires Inv(s) && Misses(s, a)
    ensures !OneUnconsumedToken(Apply(s, a).db)
  {
    var tx := s.txs[a.t];
    var h :| Unconsumed(s.db, h, tx.id) && h !in tx.doomed;
    TableFacts(s, a.t);
    hide Inv;
    var db := Apply(s, a).db;
    assert h != a.op.successor && Unconsumed(db, h, tx.id) && Unconsumed(db, a.op.successor, tx.id);
  }

  lemma IdleSwitch(s: Sys, t: TxId, successor: TokenHash)
    requires t in s.txs && s.txs[t].SwitchDeleting?
    requires successor in s.family || !RowsAvailableTo(s, t, s.txs[t].doomed) || s.txs[t].id !in s.db.sessions
    ensures CommitSwitchStep(s, t, successor).db == s.db
  {
  }

  lemma StepIff(s: Sys, a: Action)
    requires Inv(s) && OneUnconsumedToken(s.db)
    ensures OneUnconsumedToken(Apply(s, a).db) <==> !Misses(s, a)
  {
    hide Inv, OneUnconsumedToken, Reaches, RowsAvailableTo, CommitSwitchStep;
    if Misses(s, a) {
      MissLeavesTwo(s, a);
    } else if a.Step? && a.op.CommitSwitch? && a.t in s.txs && s.txs[a.t].SwitchDeleting? &&
        !Reaches(s.db, s.txs[a.t]) {
      IdleSwitch(s, a.t, a.op.successor);
    } else {
      StepAdds(s, a);
      AddsKeeps(s, Apply(s, a), a);
    }
  }

  /** One step of any run from tables with one unconsumed token per session: it leaves a session with
      two exactly when it is the commit of a switch, and some unconsumed token of its session is not
      among the rows its deletion chose. */
  lemma TwoTokensIff(clock: int, actions: seq<Action>, a: Action)
    requires OneUnconsumedToken(Run(Init(clock), actions).db)
    ensures var s := Run(Init(clock), actions);
            !OneUnconsumedToken(Apply(s, a).db) <==> Misses(s, a)
  {
    InitOk(clock);
    RunKept(Init(clock), actions);
    StepIff(Run(Init(clock), actions), a);
  }

  // Runs in which refreshes and switches stay apart

  /** Where the switches under way in `s'` come from. */
  ghost predicate SwitchesFrom(s: Sys, s': Sys, t: TxId) {
    forall o <- s'.txs :: s'.txs[o].SwitchDeleting? ==>
      (o in s.txs && s'.txs[o] == s.txs[o]) ||
      (o == t && SessionRowAvailable(s, s'.txs[o].id) && s'.txs[o].doomed == TokensOf(s.db, {s'.txs[o].id}) &&
       s'.db == s.db)
  }

  lemma BeginMoves(s: Sys, a: Action)
    requires !a.Step?
    ensures SwitchesFrom(s, Apply(s, a), 0)
  {
    hide SessionRowAvailable, RowAvailable, TokensOf, DeleteSession, DeleteTokens;
  }

  lemma StepSwitches(s: Sys, t: TxId, op: Op)
    requires t in s.txs
    ensures SwitchesFrom(s, Advance(s, t, op), t)
  {
    StepMoves(s, t, op);
    if Commits(op) {
      CommitEnds(s, t, op);
    } else {
      QuietStep(s, t, op);
    }
    hide Advance;
  }

  lemma CommitEnds(s: Sys, t: TxId, op: Op)
    requires t in s.txs && Commits(op)
    ensures var s' := Advance(s, t, op); t in s'.txs ==> s'.txs[t] == s.txs[t]
  {
    hide RotateToken, SwitchOrganization, OpenSession, Revoke, DeleteTokens;
  }

  lemma ReachKept(s: Sys, s': Sys, a: Action, o: TxId)
    requires Inv(s) && SwitchesReach(s) && !Overlaps(s, a)
    requires NoneAdded(s.db, s'.db) || exists hash, id :: Adds(s, s', a, hash, id)
    requires o in s.txs && o in s'.txs && s.txs[o] == s'.txs[o]
    ensures Reaches(s'.db, s'.txs[o])
  {
    var tx := s.txs[o];
    assert Reaches(s.db, tx);
    TableFacts(s, o);
    hide Inv;
    if tx.SwitchDeleting? {
      forall h | Unconsumed(s'.db, h, tx.id) ensures h in tx.doomed {
        if !NoneAdded(s.db, s'.db) {
          var hash, id :| Adds(s, s', a, hash, id);
          assert tx.id != id;
        }
        assert Unconsumed(s.db, h, tx.id);
      }
    }
  }

  lemma ReachesKept(s: Sys, s': Sys, a: Action, t: TxId)
    requires Inv(s) && SwitchesReach(s) && SwitchesFrom(s, s', t) && !Overlaps(s, a)
    requires NoneAdded(s.db, s'.db) || exists hash, id :: Adds(s, s', a, hash, id)
    ensures SwitchesReach(s')
  {
    forall o <- s'.txs ensures Reaches(s'.db, s'.txs[o]) {
      if o in s.txs && s'.txs[o] == s.txs[o] {
        ReachKept(s, s', a, o);
      }
    }
    hide Inv, Adds, NoneAdded, Overlaps;
  }

  lemma ApartStep(s: Sys, a: Action)
    requires Inv(s) && OneUnconsumedToken(s.db) && SwitchesReach(s) && !Overlaps(s, a)
    ensures OneUnconsumedToken(Apply(s, a).db) && SwitchesReach(Apply(s, a))
  {
    var s' := Apply(s, a);
    var t := if a.Step? then a.t else 0;
    if a.Step? {
      if a.t in s.txs {
        StepSwitches(s, t, a.op);
      }
    } else {
      BeginMoves(s, a);
    }
    hide Inv, OneUnconsumedToken, Overlaps, Advance, BeginStep, RemoveSessionStep, RemoveTokenStep, Reaches;
    StepAdds(s, a);
    AddsKeeps(s, s', a);
    ReachesKept(s, s', a, t);
  }

  lemma {:induction false} ApartRun(s: Sys, actions: seq<Action>)
    requires Inv(s) && OneUnconsumedToken(s.db) && SwitchesReach(s) && Apart(s, actions)
    ensures OneUnconsumedToken(Run(s, actions).db)
    decreases |actions|
  {
    hide Inv, OneUnconsumedToken, SwitchesReach, Apply, Overlaps;
    if actions != [] {
      ApartStep(s, actions[0]);
      ApplyKept(s, actions[0]);
      ApartRun(Apply(s, actions[0]), actions[1..]);
    }
  }

  /** Every session has at most one unconsumed refresh token throughout every run in which no rotating
      refresh of a session commits between the deletion and the commit of a switch of it. */
  lemma OneTokenApart(clock: int, actions: seq<Action>)
    requires Apart(Init(clock), actions)
    ensures OneUnconsumedToken(Run(Init(clock), actions).db)
  {
    InitOk(clock);
    ApartRun(Init(clock), actions);
  }

  // No token outlives its session

  /** A creation under a policy that the runtime settings accept. */
  predicate Fits(a: Action) {
    a.BeginCreate? ==> a.policy.refreshTokenTTL <= a.policy.sessionTTL
  }

  ghost predicate TxTimed(s: Sys, tx: Tx) {
    match tx
    case RefreshChecked(_, _, _, _, token, session) =>
      token.session in s.db.sessions ==> s.db.sessions[token.session].expiresAt == session.expiresAt
    case CreateBegun(_, _, _, policy) => policy.refreshTokenTTL <= policy.sessionTTL
    case CreateShared(_, _, _, policy) => policy.refreshTokenTTL <= policy.sessionTTL
    case _ => true
  }

  ghost predicate Timed(s: Sys) {
    TokensWithinSessions(s.db) && forall t <- s.txs :: TxTimed(s, s.txs[t])
  }

  /** The rows of recorded sessions that are left expire when they did. */
  ghost predicate ExpiriesKept(s: Sys, s': Sys) {
    forall id <- s'.db.sessions :: id in s.owner ==>
        id in s.db.sessions && s'.db.sessions[id].expiresAt == s.db.sessions[id].expiresAt
  }

  lemma RefreshWithin(s: Sys, t: TxId, successor: TokenHash)
    requires Inv(s) && t in s.txs && Timed(s)
    ensures var s' := CommitRefreshStep(s, t, successor); TokensWithinSessions(s'.db) && ExpiriesKept(s, s')
  {
    TableFacts(s, t);
    assert TxTimed(s, s.txs[t]);
    hide Inv, Timed, RotatesAtCommit;
    var tx := s.txs[t];
    if tx.RefreshChecked? && tx.hash in s.db.tokens && s.db.tokens[tx.hash].consumedAt.None? &&
        successor !in s.db.tokens {
      RotateTokenOk(s.db, tx.hash, successor, tx.now, tx.policy, tx.session.expiresAt);
      assert RotateToken(s.db, tx.hash, successor, tx.now, tx.policy, tx.session.expiresAt).sessions == s.db.sessions;
      hide RotateToken, OnlyNow, TokensWithinSessions, OneUnconsumedToken;
    }
  }

  lemma SwitchWithin(s: Sys, t: TxId, successor: TokenHash)
    requires t in s.txs && TokensWithinSessions(s.db)
    ensures var s' := CommitSwitchStep(s, t, successor); TokensWithinSessions(s'.db) && ExpiriesKept(s, s')
  {
    var tx := s.txs[t];
    if tx.SwitchDeleting? && tx.id in s.db.sessions {
      SwitchOrganizationOk(s.db, tx.id, tx.organization, tx.doomed, successor, tx.now, tx.policy);
      hide OnlyNow, TokensWithinSessions;
    }
  }

  lemma CreateWithin(s: Sys, t: TxId, id: SessionId, hash: TokenHash)
    requires Inv(s) && t in s.txs && Timed(s)
    ensures var s' := CommitCreateStep(s, t, id, hash); TokensWithinSessions(s'.db) && ExpiriesKept(s, s')
  {
    TableFacts(s, t);
    assert TxTimed(s, s.txs[t]);
    hide Inv;
    var tx := s.txs[t];
    if tx.CreateShared? && id !in s.owner {
      OpenSessionOk(s.db, id, hash, tx.user, tx.organization, tx.now, s.clock, tx.policy);
      hide OnlyNow, TokensWithinSessions;
    }
  }

  lemma RevokeWithin(s: Sys, t: TxId)
    requires t in s.txs && TokensWithinSessions(s.db)
    ensures var s' := CommitRevokeStep(s, t); TokensWithinSessions(s'.db) && ExpiriesKept(s, s')
  {
    var tx := s.txs[t];
    if tx.RevokeMarked? {
      RemovedOk(s.db, RevokedBy(s.db, tx.cause, tx.user, tx.targets), RevokedAt(tx.cause, tx.markerAt),
                Doomed(s.db, tx.cause, tx.user));
      hide TokensWithinSessions, NoneAdded;
    }
  }

  lemma RemovalWithin(s: Sys, a: Action)
    requires !a.Step? && TokensWithinSessions(s.db)
    ensures var s' := Apply(s, a); TokensWithinSessions(s'.db) && ExpiriesKept(s, s')
  {
    if a.RemoveSession? {
      DeletedOk(s.db, a.id);
    } else if a.RemoveToken? {
      RemovedOk(s.db, {}, 0, {a.hash});
      assert Revoke(s.db, {}, 0) == s.db;
    }
    hide TokensWithinSessions, NoneAdded;
  }

  lemma CommitWithin(s: Sys, t: TxId, op: Op)
    requires Inv(s) && t in s.txs && Timed(s) && Commits(op)
    ensures var s' := Advance(s, t, op); TokensWithinSessions(s'.db) && ExpiriesKept(s, s')
  {
    hide Inv, TokensWithinSessions, ExpiriesKept, CommitRefreshStep, CommitSwitchStep, CommitCreateStep;
    hide CommitRevokeStep;
    match op
    case CommitRefresh(successor) => RefreshWithin(s, t, successor);
    case CommitSwitch(successor) => SwitchWithin(s, t, successor);
    case CommitCreate(id, hash) => CreateWithin(s, t, id, hash);
    case CommitRevoke => RevokeWithin(s, t);
  }

  lemma TxStaysTimed(s: Sys, s': Sys, t: TxId)
    requires Inv(s) && t in s.txs && TxTimed(s, s.txs[t]) && ExpiriesKept(s, s')
    ensures TxTimed(s', s.txs[t])
  {
    TableFacts(s, t);
    hide Inv;
  }

  lemma StepTimed(s: Sys, t: TxId, op: Op)
    requires Inv(s) && t in s.txs && Timed(s)
    ensures Timed(Advance(s, t, op))
  {
    var s' := Advance(s, t, op);
    StepMoves(s, t, op);
    if Commits(op) {
      CommitWithin(s, t, op);
      CommitEnds(s, t, op);
    } else {
      QuietStep(s, t, op);
    }
    hide Inv, Advance, TokensWithinSessions;
    forall o <- s'.txs ensures TxTimed(s', s'.txs[o]) {
      assert TxTimed(s, s.txs[o]);
      if s'.txs[o] == s.txs[o] {
        TxStaysTimed(s, s', o);
      }
    }
  }

  lemma BegunTimed(s: Sys, a: Action)
    requires !a.Step? && Fits(a)
    ensures var s' := Apply(s, a);
            forall o <- s'.txs :: (o in s.txs && s'.txs[o] == s.txs[o]) || TxTimed(s', s'.txs[o])
  {
    hide SessionRowAvailable, RowAvailable, TokensOf, DeleteSession, DeleteTokens;
  }

  lemma BeginTimed(s: Sys, a: Action)
    requires Inv(s) && !a.Step? && Timed(s) && Fits(a)
    ensures Timed(Apply(s, a))
  {
    var s' := Apply(s, a);
    RemovalWithin(s, a);
    BegunTimed(s, a);
    hide Inv, TokensWithinSessions, ExpiriesKept, TxTimed, Apply;
    forall o <- s'.txs ensures TxTimed(s', s'.txs[o]) {
      if o in s.txs && s'.txs[o] == s.txs[o] {
        assert TxTimed(s, s.txs[o]);
        TxStaysTimed(s, s', o);
      }
    }
  }

  lemma {:induction false} TimedRun(s: Sys, actions: seq<Action>)
    requires Inv(s) && Timed(s) && forall a <- actions :: Fits(a)
    ensures Timed(Run(s, actions))
    decreases |actions|
  {
    hide Inv, Timed, Apply, Fits, Advance;
    if actions != [] {
      var a := actions[0];
      ApplyKept(s, a);
      if a.Step? {
        StepApplied(s, a);
        if a.t in s.txs {
          StepTimed(s, a.t, a.op);
        }
      } else {
        BeginTimed(s, a);
      }
      TimedRun(Apply(s, a), actions[1..]);
    }
  }

  lemma StepApplied(s: Sys, a: Action)
    requires a.Step?
    ensures Apply(s, a) == if a.t in s.txs then Advance(s, a.t, a.op) else s
  {
  }

  /** In every run, however refreshes, switches and creations interleave, no refresh token outlives its
      session. */
  lemma TokensEndWithSessions(clock: int, actions: seq<Action>)
    requires forall a <- actions :: Fits(a)
    ensures TokensWithinSessions(Run(Init(clock), actions).db)
  {
    InitOk(clock);
    TimedRun(Init(clock), actions);
  }
}
