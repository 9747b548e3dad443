/** The settings that replicas publish and the sessions that are created under them. */
module PublishedPolicies {
  import opened Wrappers
  import opened SettingsPolicy
  import opened SettingsSnapshot
  import SettingsService
  import opened SettingsReplicas
  import SessionData
  import SessionService
  import SessionFencing
  import SessionTokens

  /** The session policy read from a snapshot, in nanoseconds; the settings are in days. */
  function PolicyOf(c: Context, v: Values): SessionData.SessionPolicy
    requires TypedAt(v, SessionTTL) && TypedAt(v, RefreshTokenTTL) && TypedAt(v, Rotation)
  {
    var rotation := c.rotation(v[Rotation].text);
    SessionData.SessionPolicy(v[SessionTTL].number * DAY, v[RefreshTokenTTL].number * DAY,
                              if rotation.Some? then rotation.value else 0)
  }

  /** In every run of sets, clears and reconciliations, however reads and writes interleave, the values every
      replica publishes satisfy the policy, inequality by inequality. */
  lemma PublishedValuesHold(c: Context, initial: Stored, replicas: set<nat>, actions: seq<Action>, replica: nat)
    requires ContextOk(c) && Built(c, initial).Ok? && ValidRevision(initial)
    requires replica in Run(c, Started(c, initial, replicas), actions).replicas
    ensures var v := Run(c, Started(c, initial, replicas), actions).replicas[replica].values;
      Complete(v) && PolicyHolds(c, v)
  {
    var s := Run(c, Started(c, initial, replicas), actions);
    hide Built, PolicyHolds, Complete, Run, Started;
    SnapshotsAreReloads(c, initial, replicas, actions);
    var state :| state in s.history && Built(c, state) == Ok(s.replicas[replica]);
    BuiltIs(c, state);
  }

  /** Some replica publishes this session policy at some point of the run. */
  ghost predicate Published(c: Context, initial: Stored, replicas: set<nat>, actions: seq<Action>,
                            policy: SessionData.SessionPolicy)
    requires ContextOk(c) && Built(c, initial).Ok? && ValidRevision(initial)
  {
    exists n: nat, replica: nat ::
      n <= |actions| && replica in Run(c, Started(c, initial, replicas), actions[..n]).replicas &&
      PublishedBy(c, initial, replicas, actions[..n], replica, policy)
  }

  ghost predicate PublishedBy(c: Context, initial: Stored, replicas: set<nat>, actions: seq<Action>, replica: nat,
                              policy: SessionData.SessionPolicy)
    requires ContextOk(c) && Built(c, initial).Ok? && ValidRevision(initial)
    requires replica in Run(c, Started(c, initial, replicas), actions).replicas
  {
    PublishedValuesHold(c, initial, replicas, actions, replica);
    policy == PolicyOf(c, Run(c, Started(c, initial, replicas), actions).replicas[replica].values)
  }

  /** No published policy lets refresh tokens live longer than their session, or be younger than the interval
      at which they rotate for all their life. */
  lemma PublishedPoliciesNest(c: Context, initial: Stored, replicas: set<nat>, actions: seq<Action>,
                              policy: SessionData.SessionPolicy)
    requires ContextOk(c) && Built(c, initial).Ok? && ValidRevision(initial)
    requires Published(c, initial, replicas, actions, policy)
    ensures 0 < policy.refreshTokenTTL <= policy.sessionTTL && policy.rotation < policy.refreshTokenTTL
  {
    hide Built, Run, Started;
    var n: nat, replica: nat :|
      n <= |actions| && replica in Run(c, Started(c, initial, replicas), actions[..n]).replicas &&
      PublishedBy(c, initial, replicas, actions[..n], replica, policy);
    var v := Run(c, Started(c, initial, replicas), actions[..n]).replicas[replica].values;
    PublishedValuesHold(c, initial, replicas, actions[..n], replica);
    CompleteAt(v);
    hide Complete;
  }

  /** Sessions created under published policies, refreshed and switched under any: in every run of the atomic
      transactions each session has at most one unconsumed refresh token and outlives all of its tokens. */
  lemma SessionsUnderPublishedPolicies(c: Context, initial: Stored, replicas: set<nat>, actions: seq<Action>,
                                       ops: seq<SessionService.Op>)
    requires ContextOk(c) && Built(c, initial).Ok? && ValidRevision(initial)
    requires forall op <- ops | op.Create? :: Published(c, initial, replicas, actions, op.policy)
    ensures var db := SessionService.Run(SessionService.START, ops).db;
      SessionData.OneUnconsumedToken(db) && SessionData.TokensWithinSessions(db)
  {
    forall op <- ops ensures SessionService.OpAdmissible(op) {
      if op.Create? {
        PublishedPoliciesNest(c, initial, replicas, actions, op.policy);
      }
    }
    SessionService.RefreshTokensBounded(ops);
  }

  /** And in every interleaving of the transactions, no token outlives its session. */
  lemma TokensUnderPublishedPolicies(c: Context, initial: Stored, replicas: set<nat>, actions: seq<Action>, clock: int,
                                     steps: seq<SessionFencing.Action>)
    requires ContextOk(c) && Built(c, initial).Ok? && ValidRevision(initial)
    requires forall a <- steps | a.BeginCreate? :: Published(c, initial, replicas, actions, a.policy)
    ensures SessionData.TokensWithinSessions(SessionFencing.Run(SessionFencing.Init(clock), steps).db)
  {
    forall a <- steps ensures SessionTokens.Fits(a) {
      if a.BeginCreate? {
        PublishedPoliciesNest(c, initial, replicas, actions, a.policy);
      }
    }
    SessionTokens.TokensEndWithSessions(clock, steps);
  }
}
