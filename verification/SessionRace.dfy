/** Runs that leave a session two unconsumed tokens, because a refresh and an organization switch of it
    both store one. SessionTokens says exactly when that happens. */
module SessionRace {
  import opened Wrappers
  import opened SessionData
  import opened SessionFencing
  import opened SessionRefinement

  /** A call of each kind on one session. */
  datatype Calls = Calls(refresh: TxId, switch: TxId, hash: TokenHash, id: SessionId, user: UserId,
                         organization: OrganizationId, now: int, policy: SessionPolicy, first: TokenHash,
                         second: TokenHash)

  /** Both calls may go ahead, and the refresh rotates. */
  predicate Ready(s: Sys, c: Calls) {
    && s.txs == map[] && c.refresh != c.switch && c.now <= s.clock
    && c.id in s.db.sessions && s.db.sessions[c.id].user == c.user && Active(s.db.sessions[c.id], c.now)
    && c.hash in s.db.tokens && s.db.tokens[c.hash].session == c.id && s.db.tokens[c.hash].consumedAt.None?
    && c.now <= s.db.tokens[c.hash].expiresAt && ShouldRotate(s.db.tokens[c.hash], c.now, c.policy.rotation)
    && c.first != c.second && c.first !in s.family && c.second !in s.family
    && c.first !in s.db.tokens && c.second !in s.db.tokens
  }

  /** The switch chooses the tokens to delete before the refresh adds one. */
  function Interleaved(c: Calls): seq<Action> {
    [BeginRefresh(c.refresh, c.hash, c.now, c.policy), Step(c.refresh, Read), Step(c.refresh, LockShared),
     Step(c.refresh, LockRow), Step(c.refresh, Check),
     BeginSwitch(c.switch, c.user, c.id, c.organization, c.now, c.policy), Step(c.switch, LockShared),
     Step(c.switch, Check), Step(c.switch, Delete), Step(c.refresh, CommitRefresh(c.first)),
     Step(c.switch, CommitSwitch(c.second))]
  }

  function Checked(s: Sys, c: Calls): Tx
    requires c.hash in s.db.tokens && c.id in s.db.sessions
  {
    RefreshChecked(c.hash, c.now, c.policy, c.user, s.db.tokens[c.hash], s.db.sessions[c.id])
  }

  function Deleting(s: Sys, c: Calls): Tx {
    SwitchDeleting(c.user, c.id, c.organization, c.now, c.policy, TokensOf(s.db, {c.id}))
  }

  function Both(s: Sys, c: Calls, switching: Tx): Sys
    requires c.hash in s.db.tokens && c.id in s.db.sessions
  {
    s.(txs := map[c.refresh := Checked(s, c), c.switch := switching])
  }

  lemma RefreshBegins(s: Sys, c: Calls)
    requires Ready(s, c)
    ensures Leads(s, Interleaved(c)[0], Only(s, c.refresh, RefreshBegun(c.hash, c.now, c.policy)))
  {
  }

  lemma RefreshReads(s: Sys, c: Calls)
    requires Ready(s, c)
    ensures Leads(Only(s, c.refresh, RefreshBegun(c.hash, c.now, c.policy)), Interleaved(c)[1],
                  Only(s, c.refresh, RefreshRead(c.hash, c.now, c.policy, c.user)))
  {
  }

  lemma RefreshShares(s: Sys, c: Calls)
    requires Ready(s, c)
    ensures Leads(Only(s, c.refresh, RefreshRead(c.hash, c.now, c.policy, c.user)), Interleaved(c)[2],
                  Only(s, c.refresh, RefreshShared(c.hash, c.now, c.policy, c.user)))
  {
  }

  lemma RefreshHolds(s: Sys, c: Calls)
    requires Ready(s, c)
    ensures Leads(Only(s, c.refresh, RefreshShared(c.hash, c.now, c.policy, c.user)), Interleaved(c)[3],
                  Only(s, c.refresh, RefreshHeld(c.hash, c.now, c.policy, c.user, s.db.tokens[c.hash])))
  {
  }

  lemma RefreshChecks(s: Sys, c: Calls)
    requires Ready(s, c)
    ensures Leads(Only(s, c.refresh, RefreshHeld(c.hash, c.now, c.policy, c.user, s.db.tokens[c.hash])),
                  Interleaved(c)[4],
                  Only(s, c.refresh, Checked(s, c)))
  {
  }

  lemma SwitchReaches(s: Sys, c: Calls)
    requires Ready(s, c)
    ensures
      && Leads(Only(s, c.refresh, Checked(s, c)), Interleaved(c)[5],
               Both(s, c, SwitchBegun(c.user, c.id, c.organization, c.now, c.policy)))
      && Leads(Both(s, c, SwitchBegun(c.user, c.id, c.organization, c.now, c.policy)), Interleaved(c)[6],
               Both(s, c, SwitchShared(c.user, c.id, c.organization, c.now, c.policy)))
  {
  }

  lemma SwitchChecks(s: Sys, c: Calls)
    requires Ready(s, c)
    ensures
      && Leads(Both(s, c, SwitchShared(c.user, c.id, c.organization, c.now, c.policy)), Interleaved(c)[7],
               Both(s, c, SwitchChecked(c.user, c.id, c.organization, c.now, c.policy)))
      && Leads(Both(s, c, SwitchChecked(c.user, c.id, c.organization, c.now, c.policy)), Interleaved(c)[8],
               Both(s, c, Deleting(s, c)))
  {
  }

  /** The state after the refresh has committed and the switch has not. */
  function Rotated(s: Sys, c: Calls): Sys
    requires c.hash in s.db.tokens && c.id in s.db.sessions
  {
    s.(txs := map[c.switch := Deleting(s, c)],
       issued := s.issued + [Issued(c.id, c.user, c.now)],
       family := s.family[c.first := c.id],
       db := RotateToken(s.db, c.hash, c.first, c.now, c.policy, s.db.sessions[c.id].expiresAt))
  }

  lemma RefreshCommits(s: Sys, c: Calls)
    requires Ready(s, c)
    ensures Leads(Both(s, c, Deleting(s, c)), Interleaved(c)[9], Rotated(s, c))
  {
    assert End(Both(s, c, Deleting(s, c)), c.refresh).txs == map[c.switch := Deleting(s, c)];
  }

  lemma SwitchCommits(s: Sys, c: Calls)
    requires Ready(s, c)
    ensures var db := Apply(Rotated(s, c), Interleaved(c)[10]).db;
      Unconsumed(db, c.first, c.id) && Unconsumed(db, c.second, c.id)
  {
    assert c.first !in TokensOf(s.db, {c.id});
  }

  /** For every session that can be refreshed and switched, the interleaving leaves it two unconsumed
      tokens. */
  lemma TwoTokensLeft(s: Sys, c: Calls)
    requires Ready(s, c)
    ensures var db := Run(s, Interleaved(c)).db;
      c.first != c.second && Unconsumed(db, c.first, c.id) && Unconsumed(db, c.second, c.id)
  {
    var actions := Interleaved(c);
    var t := c.refresh;
    var shared := Only(s, t, RefreshShared(c.hash, c.now, c.policy, c.user));
    var held := Only(s, t, RefreshHeld(c.hash, c.now, c.policy, c.user, s.db.tokens[c.hash]));
    var checked := Only(s, t, Checked(s, c));
    var switching := Both(s, c, SwitchShared(c.user, c.id, c.organization, c.now, c.policy));
    var deleting := Both(s, c, Deleting(s, c));
    RefreshBegins(s, c);
    RefreshReads(s, c);
    RefreshShares(s, c);
    RefreshHolds(s, c);
    RefreshChecks(s, c);
    SwitchReaches(s, c);
    SwitchChecks(s, c);
    RefreshCommits(s, c);
    SwitchCommits(s, c);
    hide Leads, Apply, Ready, Interleaved, Both, Only, Rotated, Unconsumed;
    RunFour(s, actions, Only(s, t, RefreshBegun(c.hash, c.now, c.policy)),
            Only(s, t, RefreshRead(c.hash, c.now, c.policy, c.user)), shared, held);
    assert actions[4..][0] == actions[4] && actions[4..][1] == actions[5] && actions[4..][2] == actions[6] &&
        actions[4..][3] == actions[7];
    RunFour(held, actions[4..], checked, Both(s, c, SwitchBegun(c.user, c.id, c.organization, c.now, c.policy)),
            switching,
            Both(s, c, SwitchChecked(c.user, c.id, c.organization, c.now, c.policy)));
    assert actions[4..][4..] == actions[8..];
    LastThree(Both(s, c, SwitchChecked(c.user, c.id, c.organization, c.now, c.policy)), actions[8..], deleting,
              Rotated(s, c));
  }

  /** A creation, and time for its token to come due. */
  function Opening(c: Calls, policy: SessionPolicy, elapsed: nat): seq<Action> {
    [BeginCreate(c.refresh, c.user, c.organization, c.now - elapsed, policy), Step(c.refresh, LockShared),
     Step(c.refresh, CommitCreate(c.id, c.hash)), Tick(elapsed)]
  }

  function Opened(c: Calls, policy: SessionPolicy, elapsed: nat): Sys {
    var at := c.now - elapsed;
    Init(at).(db := OpenSession(EMPTY_TABLES, c.id, c.hash, c.user, c.organization, at, at, policy),
              owner := map[c.id := c.user], family := map[c.hash := c.id], issued := [Issued(c.id, c.user, at)])
  }

  /** The session and its token outlive the wait, which is long enough for a rotation. */
  predicate ComesDue(c: Calls, policy: SessionPolicy, elapsed: nat) {
    && c.refresh != c.switch && c.first != c.second && c.hash != c.first && c.hash != c.second
    && elapsed < policy.sessionTTL && elapsed <= policy.refreshTokenTTL
    && (c.policy.rotation < 0 || 0 < c.policy.rotation <= elapsed)
  }

  lemma CreateBegins(c: Calls, policy: SessionPolicy, elapsed: nat)
    ensures var s := Init(c.now - elapsed);
            var begun := Only(s, c.refresh, CreateBegun(c.user, c.organization, c.now - elapsed, policy));
            var shared := Only(s, c.refresh, CreateShared(c.user, c.organization, c.now - elapsed, policy));
            Leads(s, Opening(c, policy, elapsed)[0], begun) && Leads(begun, Opening(c, policy, elapsed)[1], shared)
  {
  }

  lemma CreateCommits(c: Calls, policy: SessionPolicy, elapsed: nat)
    ensures var s := Init(c.now - elapsed);
            var shared := Only(s, c.refresh, CreateShared(c.user, c.organization, c.now - elapsed, policy));
            Leads(shared, Opening(c, policy, elapsed)[2], Opened(c, policy, elapsed))
  {
    var s := Init(c.now - elapsed);
    assert End(Only(s, c.refresh, CreateShared(c.user, c.organization, c.now - elapsed, policy)), c.refresh) == s;
  }

  /** Every pair of calls comes to such a state from the empty system, by one creation and a wait. */
  lemma ReadyReached(c: Calls, policy: SessionPolicy, elapsed: nat)
    requires ComesDue(c, policy, elapsed)
    ensures Ready(Run(Init(c.now - elapsed), Opening(c, policy, elapsed)), c)
  {
    var s := Init(c.now - elapsed);
    var actions := Opening(c, policy, elapsed);
    var ready := Opened(c, policy, elapsed);
    var begun := Only(s, c.refresh, CreateBegun(c.user, c.organization, c.now - elapsed, policy));
    var shared := Only(s, c.refresh, CreateShared(c.user, c.organization, c.now - elapsed, policy));
    var last := ready.(clock := c.now);
    CreateBegins(c, policy, elapsed);
    CreateCommits(c, policy, elapsed);
    assert Leads(ready, actions[3], last);
    assert Ready(last, c);
    hide Leads, Apply, Ready, Only, Opened, Init;
    RunFour(s, actions, begun, shared, ready, last);
    assert actions[4..] == [];
  }

  /** So the run from the empty system leaves two unconsumed tokens. */
  lemma TwoTokensReached(c: Calls, policy: SessionPolicy, elapsed: nat)
    requires ComesDue(c, policy, elapsed)
    ensures var db := Run(Run(Init(c.now - elapsed), Opening(c, policy, elapsed)), Interleaved(c)).db;
            c.first != c.second && Unconsumed(db, c.first, c.id) && Unconsumed(db, c.second, c.id)
  {
    ReadyReached(c, policy, elapsed);
    TwoTokensLeft(Run(Init(c.now - elapsed), Opening(c, policy, elapsed)), c);
  }

  lemma LastThree(s: Sys, actions: seq<Action>, s1: Sys, s2: Sys)
    requires |actions| == 3 && Leads(s, actions[0], s1) && Leads(s1, actions[1], s2)
    ensures Run(s, actions) == Apply(s2, actions[2])
  {
    hide Apply;
    RunHead(s, actions, s1);
    RunHead(s1, actions[1..], s2);
    assert actions[1..][1..] == [actions[2]];
    assert [actions[2]][1..] == [];
  }
}
