/** From a committed revocation to the rejected token: SessionFencing and Revocations on one clock. The
    marker writes of the session transactions go to the marker store; other services write there too. */
module RevokedSessions {
  import F = SessionFencing
  import opened SessionData
  import T = SessionTokens
  import R = Revocations
  import P = SettingsPolicy

  datatype Sys = Sys(db: F.Sys, store: R.Sys)

  function Init(clock: nat): Sys { Sys(F.Init(clock), R.Init(clock)) }

  datatype Action =
    | Tick(elapsed: nat)
    // a step of the session transactions that writes no marker
    | Session(a: F.Action)
    // the marker writes of a transaction, in some order; without `ok` they may break off anywhere
    | Write(t: F.TxId, ok: bool, order: seq<SessionId>, accessTokenTTL: int)
    // a marker that another part of the system writes
    | Other(m: R.Action)

  predicate WritesMarkers(a: F.Action) {
    a.Tick? || (a.Step? && a.op.WriteMarkers?)
  }

  function Items(order: seq<SessionId>): set<SessionId> {
    set id | id in order
  }

  function SessionWrites(order: seq<SessionId>, at: nat, accessTokenTTL: int): seq<R.Action> {
    if order == [] then []
    else
      var last := R.RevokeScope(R.SessionKey(order[|order| - 1]), at, accessTokenTTL);
      SessionWrites(order[..|order| - 1], at, accessTokenTTL) + [last]
  }

  /** What reaches the store of one transaction's markers. */
  function Written(tx: F.Tx, at: nat, ok: bool, order: seq<SessionId>, accessTokenTTL: int): seq<R.Action>
    requires tx.RevokeTimed?
  {
    if !tx.cause.RevokeAll? then SessionWrites(order, at, accessTokenTTL)
    else if ok || order != [] then [R.RevokeScope(R.UserKey(tx.user), at, accessTokenTTL)]
    else []
  }

  /** A successful write is one for every target. */
  predicate Possible(s: Sys, t: F.TxId, ok: bool, order: seq<SessionId>) {
    && t in s.db.txs && s.db.txs[t].RevokeTimed? && s.db.txs[t].markerAt >= 0
    && (!s.db.txs[t].cause.RevokeAll? ==>
        Items(order) <= s.db.txs[t].targets && (ok ==> Items(order) == s.db.txs[t].targets))
  }

  function Apply(s: Sys, a: Action): Sys {
    match a
    case Tick(elapsed) => Sys(F.Apply(s.db, F.Tick(elapsed)), R.Apply(s.store, R.Tick(elapsed)))
    case Session(a) => if WritesMarkers(a) then s else s.(db := F.Apply(s.db, a))
    case Write(t, ok, order, accessTokenTTL) =>
      if !Possible(s, t, ok, order) then s
      else
        var tx := s.db.txs[t];
        Sys(F.Apply(s.db, F.Step(t, F.WriteMarkers(ok, Items(order)))),
            R.Run(s.store, Written(tx, tx.markerAt, ok, order, accessTokenTTL)))
    case Other(m) => if m.Tick? then s else s.(store := R.Apply(s.store, m))
  }

  function Run(s: Sys, actions: seq<Action>): Sys
    decreases |actions|
  {
    if actions == [] then s else Run(Apply(s, actions[0]), actions[1..])
  }

  // The invariant

  /** The markers of a revocation are in the store's log. */
  ghost predicate Logged(store: R.Sys, cause: F.Cause, user: UserId, at: int, targets: set<SessionId>) {
    && 0 <= at
    && if cause.RevokeAll? then R.Revocation(R.UserKey(user), at) in store.log
       else forall id <- targets :: R.Revocation(R.SessionKey(id), at) in store.log
  }

  ghost predicate TxLogged(store: R.Sys, tx: F.Tx) {
    && (tx.RevokeTimed? ==> 0 <= tx.markerAt)
    && (tx.RevokeMarked? && tx.markerOk ==> Logged(store, tx.cause, tx.user, tx.markerAt, tx.targets))
  }

  ghost predicate FencesLogged(s: Sys) {
    && (forall f <- s.db.fences :: 0 <= f.at && R.Revocation(R.SessionKey(f.session), f.at) in s.store.log)
    && (forall f <- s.db.userFences :: 0 <= f.at && R.Revocation(R.UserKey(f.user), f.at) in s.store.log)
  }

  ghost predicate Inv(s: Sys) {
    && F.Inv(s.db) && R.Inv(s.store) && s.db.clock == s.store.clock
    && (forall t <- s.db.txs :: TxLogged(s.store, s.db.txs[t]))
    && FencesLogged(s)
  }

  lemma StoreStep(store: R.Sys, m: R.Action)
    requires !m.Tick?
    ensures R.Apply(store, m).log >= store.log && R.Apply(store, m).clock == store.clock
    ensures m.RevokeScope? && R.Inv(store) && !m.key.TokenKey? && m.at <= store.clock ==>
      R.Revocation(m.key, m.at) in R.Apply(store, m).log
  {
    if m.RevokeScope? && R.Inv(store) && !m.key.TokenKey? && m.at <= store.clock {
      R.RaisedMarker(store, m.key, m.at, m.accessTokenTTL);
    }
    hide R.Inv;
  }

  lemma {:induction false} RunSnoc(store: R.Sys, front: seq<R.Action>, last: R.Action)
    ensures R.Run(store, front + [last]) == R.Apply(R.Run(store, front), last)
    decreases |front|
  {
    hide R.Apply;
    if front == [] {
      assert [last][1..] == [] && front + [last] == [last];
    } else {
      assert (front + [last])[1..] == front[1..] + [last];
      RunSnoc(R.Apply(store, front[0]), front[1..], last);
    }
  }

  lemma {:induction false} SessionsWritten(store: R.Sys, order: seq<SessionId>, at: nat, accessTokenTTL: int)
    requires R.Inv(store) && at <= store.clock
    ensures var after := R.Run(store, SessionWrites(order, at, accessTokenTTL));
      && R.Inv(after) && after.clock == store.clock && after.log >= store.log
      && forall id <- order :: R.Revocation(R.SessionKey(id), at) in after.log
  {
    hide R.Inv, R.Apply;
    if order != [] {
      var front, id := order[..|order| - 1], order[|order| - 1];
      var before := R.Run(store, SessionWrites(front, at, accessTokenTTL));
      var m := R.RevokeScope(R.SessionKey(id), at, accessTokenTTL);
      SessionsWritten(store, front, at, accessTokenTTL);
      RunSnoc(store, SessionWrites(front, at, accessTokenTTL), m);
      StoreStep(before, m);
      R.ApplyKept(before, m);
      assert forall other <- order :: other in front || other == id;
    }
  }

  lemma MarkersWritten(store: R.Sys, tx: F.Tx, ok: bool, order: seq<SessionId>, accessTokenTTL: int)
    requires R.Inv(store) && tx.RevokeTimed? && 0 <= tx.markerAt <= store.clock
    ensures var after := R.Run(store, Written(tx, tx.markerAt, ok, order, accessTokenTTL));
      && R.Inv(after) && after.clock == store.clock && after.log >= store.log
      && (ok ==> Logged(after, tx.cause, tx.user, tx.markerAt, if tx.cause.RevokeAll? then {} else Items(order)))
  {
    SessionsWritten(store, order, tx.markerAt, accessTokenTTL);
    var m := R.RevokeScope(R.UserKey(tx.user), tx.markerAt, accessTokenTTL);
    StoreStep(store, m);
    R.ApplyKept(store, m);
    assert R.Run(store, [m]) == R.Apply(store, m) by {
      assert [m][1..] == [];
    }
    hide R.Inv, R.Apply, R.Run;
  }

  // Every step keeps the invariant

  /** A store whose log has grown still logs what it did. */
  lemma StoreGrown(s: Sys, store: R.Sys)
    requires Inv(s) && R.Inv(store) && store.clock == s.store.clock && store.log >= s.store.log
    ensures Inv(Sys(s.db, store))
  {
    hide F.Inv, R.Inv;
    forall t <- s.db.txs ensures TxLogged(store, s.db.txs[t]) {
      assert TxLogged(s.store, s.db.txs[t]);
    }
  }

  lemma FencesSame(db: F.Sys, t: F.TxId, op: F.Op)
    requires t in db.txs && op != F.CommitRevoke
    ensures var after := F.Advance(db, t, op);
      after.fences == db.fences && after.userFences == db.userFences && after.clock == db.clock
  {
    if !F.Commits(op) {
      F.QuietStep(db, t, op);
      hide F.Advance;
    }
  }

  lemma FencesFrom(s: Sys, t: F.TxId)
    requires t in s.db.txs && TxLogged(s.store, s.db.txs[t]) && FencesLogged(s)
    ensures var after := F.Advance(s.db, t, F.CommitRevoke);
      FencesLogged(Sys(after, s.store)) && after.clock == s.db.clock
  {
    hide Revoke, DeleteTokens;
  }

  lemma StepKept(s: Sys, t: F.TxId, op: F.Op)
    requires Inv(s) && t in s.db.txs && !op.WriteMarkers?
    ensures Inv(Sys(F.Advance(s.db, t, op), s.store))
  {
    hide F.Inv, R.Inv, F.Advance, Logged, FencesLogged;
    var after := F.Advance(s.db, t, op);
    F.AdvanceKept(s.db, t, op);
    T.StepMoves(s.db, t, op);
    if op == F.CommitRevoke {
      FencesFrom(s, t);
    } else {
      FencesSame(s.db, t, op);
      FencesStay(s, after);
    }
    NoMarksElsewhere(s.db, t, op);
    forall o <- after.txs ensures TxLogged(s.store, after.txs[o]) {
      TimesStay(s, t, o, after);
    }
  }

  lemma FencesStay(s: Sys, after: F.Sys)
    requires FencesLogged(s) && after.fences == s.db.fences && after.userFences == s.db.userFences
    ensures FencesLogged(Sys(after, s.store))
  {
  }

  lemma TimesStay(s: Sys, t: F.TxId, o: F.TxId, after: F.Sys)
    requires t in s.db.txs && T.OneTxMoved(s.db, after, t) && o in after.txs && 0 <= s.db.clock
    requires forall p <- s.db.txs :: TxLogged(s.store, s.db.txs[p])
    requires t in after.txs && after.txs[t].RevokeMarked? ==> after.txs[t] == s.db.txs[t]
    ensures TxLogged(s.store, after.txs[o])
  {
    hide Logged;
    assert TxLogged(s.store, s.db.txs[o]);
  }

  /** Only the marker writes lead a transaction past them. */
  lemma NoMarksElsewhere(db: F.Sys, t: F.TxId, op: F.Op)
    requires t in db.txs && !op.WriteMarkers?
    ensures var after := F.Advance(db, t, op);
      t in after.txs && after.txs[t].RevokeMarked? ==> after.txs[t] == db.txs[t]
  {
    if F.Commits(op) {
      T.CommitEnds(db, t, op);
      hide F.Advance;
    } else {
      hide F.SharedAvailable, F.RowAvailable, F.ExclusiveAvailable, F.SessionRowAvailable, F.ReadToken;
      hide F.ReadCause, TokensOf;
    }
  }

  lemma WriteEffect(db: F.Sys, t: F.TxId, ok: bool, landed: set<SessionId>)
    requires t in db.txs && db.txs[t].RevokeTimed?
    ensures var after := F.Apply(db, F.Step(t, F.WriteMarkers(ok, landed)));
      && after.fences == db.fences && after.userFences == db.userFences && after.clock == db.clock
      && T.OneTxMoved(db, after, t)
      && (t in after.txs ==> after.txs[t].RevokeMarked? && (after.txs[t].markerOk ==> ok))
  {
    T.MarkersMove(db, t, ok, landed);
    hide T.OneTxMoved, F.Marks;
  }

  lemma MarkerTimes(db: F.Sys, t: F.TxId)
    requires F.Inv(db) && t in db.txs && db.txs[t].RevokeTimed?
    ensures db.txs[t].markerAt <= db.clock && (db.txs[t].cause.RevokeAll? ==> db.txs[t].targets == {})
  {
    F.TxAt(db, t);
    hide F.Inv, F.TablesRecorded, F.RevokedStay;
  }

  lemma WriteKept(s: Sys, t: F.TxId, ok: bool, order: seq<SessionId>, accessTokenTTL: int)
    requires Inv(s) && Possible(s, t, ok, order)
    ensures Inv(Apply(s, Write(t, ok, order, accessTokenTTL)))
  {
    hide F.Inv, R.Inv, F.Apply, R.Run, Written;
    var tx := s.db.txs[t];
    var after := F.Apply(s.db, F.Step(t, F.WriteMarkers(ok, Items(order))));
    var store := R.Run(s.store, Written(tx, tx.markerAt, ok, order, accessTokenTTL));
    MarkerTimes(s.db, t);
    F.ApplyKept(s.db, F.Step(t, F.WriteMarkers(ok, Items(order))));
    WriteEffect(s.db, t, ok, Items(order));
    MarkersWritten(s.store, tx, ok, order, accessTokenTTL);
    StoreGrown(s, store);
    forall o <- after.txs ensures TxLogged(store, after.txs[o]) {
      assert TxLogged(store, s.db.txs[o]);
    }
  }

  lemma OtherKept(s: Sys, m: R.Action)
    requires Inv(s) && !m.Tick?
    ensures Inv(s.(store := R.Apply(s.store, m)))
  {
    R.ApplyKept(s.store, m);
    StoreStep(s.store, m);
    hide F.Inv, R.Inv, R.Apply;
    StoreGrown(s, R.Apply(s.store, m));
  }

  lemma TickKept(s: Sys, elapsed: nat)
    requires Inv(s)
    ensures Inv(Apply(s, Tick(elapsed)))
  {
    F.ApplyKept(s.db, F.Tick(elapsed));
    R.ApplyKept(s.store, R.Tick(elapsed));
    hide F.Inv, R.Inv;
    var s' := Apply(s, Tick(elapsed));
    forall o <- s'.db.txs ensures TxLogged(s'.store, s'.db.txs[o]) {
      assert TxLogged(s.store, s.db.txs[o]);
    }
  }

  lemma BeginKept(s: Sys, a: F.Action)
    requires Inv(s) && !a.Step? && !a.Tick?
    ensures Inv(s.(db := F.Apply(s.db, a)))
  {
    F.ApplyKept(s.db, a);
    hide F.Inv, R.Inv, Logged, DeleteSession, DeleteTokens, F.SessionRowAvailable, F.RowAvailable, TokensOf;
    var after := F.Apply(s.db, a);
    forall o <- after.txs ensures TxLogged(s.store, after.txs[o]) {
      assert o in s.db.txs ==> TxLogged(s.store, s.db.txs[o]);
    }
  }

  lemma ApplyKept(s: Sys, a: Action)
    requires Inv(s)
    ensures Inv(Apply(s, a))
  {
    hide Inv;
    match a
    case Tick(elapsed) => TickKept(s, elapsed);
    case Session(a) =>
      if !WritesMarkers(a) {
        if a.Step? {
          T.StepApplied(s.db, a);
          hide F.Apply, F.Advance;
          if a.t in s.db.txs {
            StepKept(s, a.t, a.op);
          }
        } else {
          BeginKept(s, a);
        }
      }
    case Write(t, ok, order, accessTokenTTL) =>
      if Possible(s, t, ok, order) {
        WriteKept(s, t, ok, order, accessTokenTTL);
      }
    case Other(m) =>
      if !m.Tick? {
        OtherKept(s, m);
      }
  }

  lemma InitOk(clock: nat)
    ensures Inv(Init(clock))
  {
    F.InitOk(clock);
    hide F.Inv;
  }

  lemma {:induction false} RunKept(s: Sys, actions: seq<Action>)
    requires Inv(s)
    ensures Inv(Run(s, actions))
    decreases |actions|
  {
    if actions != [] {
      hide Inv, Apply;
      ApplyKept(s, actions[0]);
      RunKept(Apply(s, actions[0]), actions[1..]);
    }
  }

  // Main results

  /** The claims of an access token handed out by the session transactions. */
  function Signed(k: F.Issued, id: R.Id, organization: R.Id, ttl: int): R.Claims
    requires 0 <= k.iat && 0 <= ttl
  {
    R.Sign(id, k.session, k.user, organization, k.iat, ttl)
  }

  /** Over every run of the two together, once a revocation of chosen sessions has committed with its
      markers written, every access token handed out for one of them, at whatever point of the run, is
      rejected for as long as it has not expired, if its lifetime is one the runtime settings accept. */
  lemma CommittedRevocationRejects(
    clock: nat, actions: seq<Action>, f: F.SessionFence, k: F.Issued, id: R.Id, organization: R.Id,
    ttl: int, sessionTTL: int, refreshTTL: int, rotation: int, window: int, expiryOnly: bool)
    requires var s := Run(Init(clock), actions).db; f in s.fences && k in s.issued && k.session == f.session
    requires 0 <= k.iat && P.ValidSession(ttl, sessionTTL, refreshTTL, rotation, window, expiryOnly)
    ensures var s := Run(Init(clock), actions);
            var c := Signed(k, id, organization, ttl);
            s.db.clock <= c.expiresAt ==> R.Check(s.store.entries, s.store.clock, c) == R.RevokedToken
  {
    var s := Run(Init(clock), actions);
    InitOk(clock);
    RunKept(Init(clock), actions);
    FenceCovers(s.db, f, k);
    hide F.Inv, R.Inv, F.FencesOk, R.Check;
    R.RevokedByScope(s.store, R.Revocation(R.SessionKey(f.session), f.at), Signed(k, id, organization, ttl));
  }

  lemma FenceCovers(db: F.Sys, f: F.SessionFence, k: F.Issued)
    requires F.Inv(db) && f in db.fences && k in db.issued && k.session == f.session
    ensures k.iat <= f.at
  {
    assert F.FenceOk(db, f);
  }

  /** The same for a revocation of all of a user's sessions: it rejects every token that had been handed
      out to the user, and every token ever handed out for a session it revoked. */
  lemma CommittedUserRevocationRejects(
    clock: nat, actions: seq<Action>, f: F.UserFence, k: F.Issued, id: R.Id, organization: R.Id,
    ttl: int, sessionTTL: int, refreshTTL: int, rotation: int, window: int, expiryOnly: bool)
    requires var s := Run(Init(clock), actions).db;
      f in s.userFences && (k in f.before || (k in s.issued && k.session in f.sessions))
    requires 0 <= k.iat && P.ValidSession(ttl, sessionTTL, refreshTTL, rotation, window, expiryOnly)
    ensures var s := Run(Init(clock), actions);
            var c := Signed(k, id, organization, ttl);
            s.db.clock <= c.expiresAt ==> R.Check(s.store.entries, s.store.clock, c) == R.RevokedToken
  {
    var s := Run(Init(clock), actions);
    InitOk(clock);
    RunKept(Init(clock), actions);
    UserFenceCovers(s.db, f, k);
    hide F.Inv, R.Inv, F.FencesOk, R.Check;
    R.RevokedByScope(s.store, R.Revocation(R.UserKey(f.user), f.at), Signed(k, id, organization, ttl));
  }

  lemma UserFenceCovers(db: F.Sys, f: F.UserFence, k: F.Issued)
    requires F.Inv(db) && f in db.userFences && (k in f.before || (k in db.issued && k.session in f.sessions))
    ensures k.user == f.user && k.iat <= f.at
  {
    assert F.UserFenceOk(db, f);
  }
}
