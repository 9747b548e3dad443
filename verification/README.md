# Authara in Dafny

A model of the parts of the Authara authentication server that hold state machines, protocols or
arithmetic, with proofs of what they keep.

- **Sessions** (`SessionData`, `SessionFencing`, `SessionTargets`, `SessionTokens`, `SessionRace`, `SessionService`,
  `SessionRefinement`). Refresh tokens rotate as in section 4.14.2 of RFC 9700. `SessionFencing` interleaves
  transactions lock by lock, read by read and commit by commit; `SessionTargets` says which sessions a revocation
  reaches, `SessionTokens` when the interleaving keeps one refresh token per session, `SessionRace` reaches a state
  where it does not; `SessionService` takes each transaction as one step, and `SessionRefinement` says that the first
  without interference is the second.
- **Revocation markers** (`Decimal`, `Redis`, `Revocations`, `RevokedSessions`). The set-max and counter scripts on
  one Redis server, the access-token check over them, and runs of it together with the session transactions, from a
  committed revocation to a rejected token.
- **Runtime settings** (`SettingsPolicy`, `SettingsProjection`, `SettingsSnapshot`, `SettingsService`,
  `SettingsReplicas`, `PublishedPolicies`). Layered values, environment-removal projections by bit mask, and several
  replicas over one compare-and-set store; `PublishedPolicies` carries the policies they publish over to the sessions.
- **Organizations** (`Organizations`, `OrganizationRuns`, `OrganizationEffects`, `OrganizationService`). Ownership,
  invitations, modes and the deletion of users.
- **Email templates** (`Template`, `TemplateMeaning`). The placeholder rewriter and the meaning of what it writes.
- **Rate limiters** (`RateLimiter`, `RateLimiterRuns`). The in-memory limiter with its sweep and eviction, the cache
  limiter over the counter script, and how their answers compare.
- **The rest** (`Base64`, `Password`, `Maintenance`, `Challenge`, `EmailRetry`, `Powers`, `Username`, `Wrappers`).

Where the source changes state in place there is a class whose methods follow the source statement by statement and
are proved equal to functions of the old state; the theorems are about those functions and about runs of them.

## Findings

- One unconsumed refresh token per session holds in every interleaving except one in which a rotating refresh commits
  between the deletion and the commit of an organization switch of its session (`SessionTokens.OneTokenApart`): the
  switch then leaves the refresh's token beside its own (`SessionTokens.TwoTokensIff`, `SessionRace.TwoTokensReached`).
- A template source may pass the rewriter and be refused by the renderer: exactly when a brace stands just before a
  placeholder (`TemplateMeaning.RewritingPreservesMeaning`).
- The two limiters first disagree exactly at an attempt with the limit used up that comes between the two ends of its
  window: Redis keeps a key to the end of the millisecond in which it is due, memory drops it at the nanosecond
  (`RateLimiterRuns.FirstDifference`). For a window of whole milliseconds memory lets the attempt through and the cache
  does not.
- A caller refused by the cache limiter who waits exactly as long as told is refused again: the key lives to the end
  of the millisecond in which the wait ends (`RateLimiterRuns.CacheRetryAfter`). In memory the wait is exact.
- A settings change can leave a state on which a process without one environment variable does not start, through the
  one rule that is in no projection group (`SettingsReplicas.EmailRuleNotProjected`).
- Of the errors with which preparing a user's deletion can fail, only the one for the last owner can occur on
  reachable tables (`OrganizationRuns.UserDeletion`).

## Assumptions

- PostgreSQL at READ COMMITTED: a transaction's writes appear when it commits; FOR KEY SHARE on a row conflicts with
  FOR UPDATE on it only; a DELETE chooses its rows when it starts and waits for locks on them; unique indexes and
  foreign keys hold. Outside `SessionFencing` a transaction is one step.
- Fresh row identifiers, random tokens and their hashes do not repeat. Hash and key-derivation functions are
  parameters or are replaced by what they are applied to.
- Redis drops a key when its clock, in milliseconds, is past the key's deadline, and runs a script alone. Its clock is
  that of the processes, cut to milliseconds. The client library cuts lifetimes to milliseconds and asks for at least
  one.
- Callers of session operations pass a `now` that is not ahead of the clock.
- Integers are unbounded; the 32-bit limit of the password parser is written out, and `EmailRetry.NominalDelay`
  bounds what it computes.
- Rate limits, windows and the cleanup interval are positive, as the limiters' configuration makes them; where the
  limiters are compared, windows are at least a millisecond, of which the runtime settings ask a thousand.

## Model

| member | source | states |
|---|---|---|
| SessionFencing.RevocationIsFinal | internal/session/service.go:763-852 | For every interleaving of refreshes, switches, creations, revocations, clean-ups and clock ticks: once a session row is revoked, the log of grants to it never changes again, so not one refresh or switch of it succeeds, none of its refresh tokens is rotated or joined by a new one, and the row stays revoked for as long as it exists |
| SessionFencing.CommitFences | internal/session/service.go:763-852 | When a revocation of chosen sessions commits, their rows are revoked and, if its marker was written, every access token handed out for them so far has an issue time the marker covers; this is what the clock read after the exclusive lock buys |
| SessionFencing.CommitFencesUser | internal/session/service.go:883-902 | The same for the revocation of all of a user's sessions and the user's marker: no session row of the user is left unrevoked, and no token handed out to the user is later than the marker |
| SessionTargets.CommitFencesOthers | internal/session/service.go:1109-1152 | Whatever else runs meanwhile, when the revocation of a user's other sessions commits, every session of the user but the kept one is revoked and without tokens and the kept one is as it was; if the markers were written, every session that was active for the caller has one, which covers every access token ever handed out for it |
| SessionTargets.CommitFencesNamed | internal/session/service.go:763-852 | When a revocation that names a session or a token of it commits, exactly that session's row is revoked, and a written marker covers every access token ever handed out for it |
| SessionTargets.RunAimed | internal/session/service.go:1109-1152 | The invariant behind both: the sessions a revoking transaction collected under the user's row lock are still the right ones at every later step of it |
| SessionTargets.MarkersOnlyOfTargets | internal/session/service.go:763-902 | Marker writes raise the markers of the sessions they are for, or of the one user, to the instant read under the lock unless they are later already, and touch no other |
| SessionFencing.FencesHold | internal/session/service.go:605-761 | A committed marker keeps covering the session's access tokens to the end of the run, whatever refreshes and switches were under way |
| SessionFencing.RunKept | internal/session/service.go:498-852 | The invariant behind these: shared and exclusive user locks exclude each other, what a transaction read under its lock is still so, and every fence covers the tokens issued; marker writes may break off after any of the targets |
| SessionFencing.RevokedRunGrantsNothing | internal/session/service.go:616-652 | The same from any state that satisfies the invariant: the session's grants, in order and with repetitions, are the same at the end of any run |
| SessionRefinement.UninterruptedRefresh | internal/session/service.go:605-761 | The lock-by-lock refresh, run without interference, is the atomic refresh: same tables, same token handed out, and a detected reuse turns into the revoking transaction |
| SessionRefinement.UninterruptedSwitch | internal/session/service.go:498-603 | The same for the organization switch |
| SessionRefinement.UninterruptedCreate | internal/session/service.go:120-276 | The same for the creation of a session |
| SessionRefinement.UninterruptedRevoke | internal/session/service.go:763-902 | The same for all five revocations: of a reused token, which survives a failed marker write, logout, one session, the others, all |
| SessionTokens.OneTokenApart | internal/session/service.go:498-761 | Lock by lock and under READ COMMITTED, every session has at most one unconsumed refresh token in every run in which no rotating refresh of a session commits between the deletion and the commit of an organization switch of it |
| SessionTokens.TwoTokensIff | internal/session/service.go:568-585 | Exactly how it fails: a step of any run leaves a session with two unconsumed tokens if and only if it is the commit of a switch and an unconsumed token of the session is not among the rows its deletion chose |
| SessionTokens.TokensEndWithSessions | internal/session/service.go:573-576 | No refresh token outlives its session in any interleaving, whatever the policies of later refreshes and switches, if sessions are created under accepted policies |
| SessionRace.TwoTokensLeft | internal/session/service.go:568-585 | The failing runs: for every session that can be refreshed and switched, the interleaving in which the switch picks the tokens to delete before the refresh commits leaves two unconsumed tokens, because both calls only share the user's row lock |
| SessionRace.ReadyReached | internal/session/service.go:120-276 | Such a session comes about from the empty system by one creation and a wait, for every policy that rotates |
| SessionRace.TwoTokensReached | internal/session/service.go:568-585 | So the run from the empty system ends with two unconsumed tokens |
| RevokedSessions.CommittedRevocationRejects | internal/session/token/revocations.go:63-117 | End to end, on one clock, with the marker writes of the session transactions going to the marker store: in every run of both, every access token handed out for a session whose revocation committed with its marker is rejected until it expires, if its lifetime is one the runtime settings accept |
| RevokedSessions.CommittedUserRevocationRejects | internal/session/service.go:883-902 | The same for the revocation of all of a user's sessions: every token that had been handed out to the user, and every token ever handed out for a session it revoked |
| RevokedSessions.RunKept | internal/session/token/revocations.go:42-61 | The invariant joining the two: every marker that a marked transaction or a committed revocation relies on is in the store's log |
| SessionService.RefreshTokensBounded | internal/session/service.go:199-225 | With each transaction as one step, in every reachable state a session has at most one unconsumed refresh token and no refresh token outlives its session, even as the policies change |
| SessionService.ReportedReuseIsFinal | internal/session/service.go:763-805 | Once a stored consumed token has been reported as reuse, no refresh or switch of that session ever succeeds again, whether or not the marker write succeeded |
| SessionService.ReuseReportedIff | internal/session/service.go:616-652 | Reuse is reported exactly when a stored token was already consumed, its session is still stored and the revoking transaction commits |
| SessionService.DeadGrantsNothing | internal/session/service.go:616-652 | A session that is revoked or gone, and whose identifier is not used again, is granted nothing in any run |
| SessionService.RefreshIs | internal/session/service.go:605-761 | A refresh succeeds exactly for a stored, unconsumed token and a stored, unrevoked session, each to the last instant of its life, if the checks allow it and a rotated token can be stored; with rotation off or the token younger than the interval nothing changes and the same token is handed back; otherwise the old row is consumed and the new one has its session, its organization and the sooner of the two ends; a reused token revokes its session and nothing else; any other refusal changes nothing |
| SessionService.SwitchIs | internal/session/service.go:498-603 | A switch succeeds exactly for the user's own session, unrevoked and not yet at its expiry, if allowed and the token is new; then the session's row has the organization asked for, its only token is the new one, for that organization and ending no later than the session, and no other session or token changes; a refusal changes nothing |
| SessionService.CreateIs | internal/session/service.go:120-276 | A creation succeeds exactly when allowed with new identifiers, and adds one session and one token with the policy's lifetimes, the token's age counted from the database clock |
| SessionService.RevocationsAre | internal/session/service.go:807-902 | Logout, the revocation of one session, of the others and of all: exactly which rows are marked, at which instant, and which tokens go; a failed one changes nothing |
| SessionService.SessionService.CreateSession | internal/session/service.go:120-276 | Row by row: exactly when it succeeds, and the session and token it adds with their lifetimes |
| SessionService.SessionService.SwitchSessionOrganization | internal/session/service.go:498-603 | The switch, with its errors in the source's order: it succeeds exactly for the user's own active session, which then is in the organization asked for with one token for it that does not outlive the session; else nothing changes |
| SessionService.SessionService.RefreshSession | internal/session/service.go:605-761 | The refresh: exactly when it succeeds, when it rotates and when it hands the same token back, the tombstone and the successor's session, organization and end, and the hand-over to the reuse transaction |
| SessionService.SessionService.RevokeReusedRefreshToken | internal/session/service.go:763-805 | The reuse transaction: the session is revoked although the marker write failed, and the error says whether it did |
| SessionService.SessionService.Logout | internal/session/service.go:807-852 | Logout marks exactly the token's session as revoked, now, or changes nothing |
| SessionService.SessionService.RevokeAllSessions | internal/session/service.go:883-902 | Exactly the user's unrevoked sessions are marked, at the clock read under the lock; tokens and other rows stay |
| SessionService.SessionService.RevokeUserSession | internal/session/service.go:1059-1107 | The user's own session is marked at the caller's instant and exactly its tokens go; another user's is left alone |
| SessionService.SessionService.RevokeOtherUserSessions | internal/session/service.go:1109-1152 | Exactly the user's unrevoked sessions but the kept one are marked, and the tokens of all sessions of the user but the kept one go |
| SessionService.SessionService.DeleteRefreshTokensBySession | internal/store/sessions.go:294-297 | Exactly the session's tokens go |
| Decimal.LengthThenTextIsOrder | internal/cache/redis.go:163-166 | The script's comparison, longer text first and then text order, is integer order on canonical decimals |
| Redis.MaxEntryIsMax | internal/cache/redis.go:154-183 | The set-max script stores the greater of the two values and never shortens how long either lives |
| Redis.Server.SetMaxInt64 | internal/cache/redis.go:89-100 | The script, statement by statement, leaves the entry of its specification, error replies included |
| Redis.Server.Increment | internal/cache/redis.go:109-149 | The counter script: new count, remaining time, and the expiry set on the first increment only |
| Redis.Server.Tick | internal/cache/redis.go:142-183 | Time passing and the server dropping expired keys change no later lookup |
| Revocations.RevokedTokenRejected | internal/session/token/revocations.go:42-117 | At every instant of every run, a token signed no later than a revocation of its session, user or membership is rejected until it expires, whatever markers came before, between, after or out of order and whatever the lifetime setting did |
| Revocations.ScopeRevocationTakesEffect | internal/session/token/revocations.go:42-117 | After whatever has happened, revoking a session, a user or a membership from some instant on makes the check reject its tokens signed by then, to the last instant of their lives and whatever happens next |
| Revocations.TokenRevocationTakesEffect | internal/session/token/revocations.go:27-40 | And revoking an unexpired token by its identifier makes the check reject it until it expires |
| Revocations.OnlyRevokedTokensRejected | internal/session/token/revocations.go:63-117 | Nothing else is rejected: a rejected token was revoked itself or some revocation of its scopes is no earlier than its issue time |
| Revocations.RevokedIdentifierRejected | internal/session/token/revocations.go:27-40 | A token revoked by its identifier is rejected at every later instant before it expires, over every run |
| Revocations.MarkerAtExpiry | internal/session/token/revocations.go:27-40 | At the instant of expiry itself its marker is still there exactly when it was written at a whole millisecond or in the last one |
| Revocations.RaisedMarker | internal/bootstrap/revocations.go:14-18 | Each marker write keeps the marker canonical, at least as late as both values, and alive for as long as the longest-lived token it must stop |
| Revocations.CheckVerdict | internal/session/token/revocations.go:63-117 | On reachable stores the check never fails for a malformed marker, and rejects exactly when a live marker cuts the token |
| SettingsPolicy.GroupsMakeChecks | internal/config/runtime_service.go:721-774 | The return-path, session, webhook and challenge checks hold exactly when every group's projection validator does and the counts outside the groups are in range; splitting webhook events from timings loses nothing |
| SettingsPolicy.PolicyIs | internal/config/runtime_service.go:776-859 | The validators accept exactly the values that satisfy each inequality of the return-path, session, webhook, challenge and email rules, written out in minutes, days and nanoseconds |
| SettingsPolicy.PermittedIs | internal/config/runtime_catalog.go:12-270 | The values an operator may give each setting: its type, and its bounds in counts, minutes, days and nanoseconds |
| SettingsPolicy.GroupOkLocal | internal/config/runtime_service.go:721-774 | A group's verdict depends on the group's own settings only |
| SettingsPolicy.Default | internal/config/runtime_catalog.go:12-270 | Every default has its setting's type and lies within its bounds |
| SettingsProjection.MaskOfBits | internal/config/runtime_service.go:704-714 | The mask computed for a set of variables has exactly that set's bits |
| SettingsProjection.MasksAreSubsets | internal/config/runtime_service.go:699-719 | Checking every bit mask of a group is checking every subset of the environment variables |
| SettingsProjection.MaskValues | internal/config/runtime_service.go:706-714 | The inner loop gives each setting of the group the environment's value where the mask has its bit, and the stored or default value elsewhere |
| SettingsProjection.ProjectionErrors | internal/config/runtime_service.go:699-719 | The two loops report, mask by mask, exactly the invalid projections of the setting's group |
| SettingsProjection.OtherGroups | internal/config/runtime_service.go:721-774 | A change of one setting leaves the projections of every other group as they were |
| SettingsProjection.OneGroupIsEnough | internal/config/runtime_service.go:343-352 | No projection of any group and any subset is newly invalid exactly when none of the changed setting's masks is |
| SettingsProjection.SafeIsRemovable | internal/config/runtime_service.go:686-693 | With the present policy accepted, all projections are valid exactly when removing any environment variables leaves every check but the email rule satisfied |
| SettingsSnapshot.Build | internal/config/runtime_service.go:493-684 | buildSnapshot, loop by loop, equals its specification: bad revisions, duplicates and rows that may not or do not decode are refused, unknown keys are kept aside, values are layered and described, and the policy is checked |
| SettingsSnapshot.BuiltIs | internal/config/runtime_service.go:493-684 | A stored state builds only with rows in order and values in force that satisfy the written-out policy; one whose rows are in order fails only because those values violate it |
| SettingsSnapshot.DescriptionsAre | internal/config/runtime_service.go:527-562 | Each setting of a built snapshot is described from its stored row, the default and the environment: what is configured, in force, overridden and editable |
| SettingsSnapshot.Layers | internal/config/runtime_service.go:527-562 | The loop over the settings: fallback, effective value and description of each |
| SettingsSnapshot.OverridesUnique | internal/config/runtime_service.go:493-521 | The override map is the only one that holds exactly the known rows |
| SettingsService.Store.Upsert | internal/store/runtime_settings.go:72-138 | A row is written, and the state revision raised, only if both the state revision and the row's revision are the ones the writer saw; zero stands for no row |
| SettingsService.Store.Delete | internal/store/runtime_settings.go:140-194 | The same for a deletion, which needs a row |
| SettingsService.SetIs | internal/config/runtime_service.go:238-298 | Set succeeds exactly when an actor edits a setting that may be edited with a value of its type and bounds, the state read builds, the values proposed satisfy the written-out policy, no removal of environment variables breaks the setting's group, and neither the state nor the row has changed since; then exactly that row is written and the published values are the proposed ones; a refusal leaves the store alone |
| SettingsService.ClearIs | internal/config/runtime_service.go:311-365 | The same for a clear, which needs the row at the revision seen and removes exactly it |
| SettingsService.SettingsService.Set | internal/config/runtime_service.go:238-298 | Set for any state another replica may have left between the reload and the write: errors in the source's order, the reload published even when the set fails, and on tables with one row per key exactly when it succeeds, that it then publishes values satisfying the written-out policy, and the one row it writes |
| SettingsService.SettingsService.Clear | internal/config/runtime_service.go:311-365 | Clear likewise, with exactly when it succeeds and the one row it removes; it may leave projections that were already invalid but add none |
| SettingsService.SettingsService.ReloadLocked | internal/config/runtime_service.go:468-491 | A reload publishes the built state, skips a revision it has when not forced, and changes nothing when loading or building fails |
| SettingsService.SettingsService.Reconcile | internal/config/runtime_service.go:449-466 | A reconciliation publishes nothing but the reload of what it read |
| SettingsService.ProjectionsValid | internal/config/runtime_service.go:686-693 | The loop over the masks answers whether the setting's group has no invalid mask |
| SettingsService.ProjectionsUnharmed | internal/config/runtime_service.go:343-352 | The comparison of the masks before and after a clear answers whether none is newly invalid |
| SettingsService.ChangedGroupOnly | internal/config/runtime_service.go:276-278 | With every projection valid before a change of one setting, checking that setting's masks is checking every subset under every group |
| SettingsReplicas.SetPublishesReload | internal/config/runtime_service.go:265-297 | The preview with the stored row's revision and actor is the snapshot a reload of the written state builds |
| SettingsReplicas.ClearPublishesReload | internal/config/runtime_service.go:332-364 | The same for a clear |
| SettingsReplicas.SnapshotsAreReloads | internal/config/runtime_service.go:238-365 | Over every run of sets, clears and reconciliations by several replicas, with any interleaving of reads and writes: every stored state builds, and every published snapshot is the full reload of the stored state with its revision |
| SettingsReplicas.WritesPublishReloads | internal/config/runtime_service.go:282-297 | An accepted write takes the next state revision, and its replica publishes the full reload of what the store then holds |
| SettingsReplicas.RemovalStaysSafe | internal/config/runtime_service.go:276-278 | From a state with no invalid projection, after any run and for any environment variables taken away, a process still starts on any stored state exactly when the email-verification rule allows it |
| SettingsReplicas.EmailRuleNotProjected | internal/config/runtime_service.go:587-593 | The rule left out of the projections matters: where only the environment enables the challenge flows, requiring verified email is accepted, and without that one variable no process starts on the state it leaves |
| SettingsReplicas.DefaultsAreSafe | internal/config/runtime_catalog.go:12-270 | With nothing stored and no environment variable the defaults build and no projection is invalid, so the runs above start somewhere |
| PublishedPolicies.PublishedValuesHold | internal/config/runtime_service.go:776-859 | In every run of sets, clears and reconciliations by several replicas, however interleaved, the values every replica publishes satisfy each inequality of the policy |
| PublishedPolicies.PublishedPoliciesNest | internal/config/runtime_service.go:776-784 | So no session policy ever published lets refresh tokens outlive sessions or be younger than their rotation interval for all their life |
| PublishedPolicies.SessionsUnderPublishedPolicies | internal/session/service.go:199-225 | Sessions created under published policies, refreshed and switched under any, have at most one unconsumed refresh token each and outlive all their tokens, in every run of atomic transactions |
| PublishedPolicies.TokensUnderPublishedPolicies | internal/session/service.go:199-225 | And no token outlives its session in any interleaving of the transactions step by step |
| SettingsReplicas.RunKept | internal/config/runtime_service.go:238-365 | The invariant over runs: revisions count up by one, every stored state builds, every snapshot is a reload, and no projection valid at one stored state is invalid at a later one |
| OrganizationRuns.OwnershipSurvives | internal/organization/lifecycle.go:39-279 | Over every run of signup, creation, role change, removal, transfer, invitation, acceptance, deletion of organizations and deletion of users, each organization has exactly one owner, who is a member and an existing user; a personal one is owned by its creator |
| OrganizationRuns.UserDeletion | internal/organization/lifecycle.go:208-279 | Deleting a user is refused, with nothing changed, exactly when the user owns a team others belong to; otherwise exactly the user's own personal organizations and the teams where the user was alone go, and every other organization loses that membership only and keeps its owner |
| OrganizationRuns.DeletableIff | internal/organization/lifecycle.go:242-260 | The checking loop finds no obstacle exactly when the user owns no shared team: on reachable tables its other errors cannot occur |
| OrganizationRuns.InvitationsOnce | internal/organization/invitations.go:80-295 | Over every run an organization has at most one pending invitation per address, and no invitation takes effect twice |
| OrganizationRuns.AcceptTwice | internal/organization/invitations.go:528-541 | Repeating an acceptance by the same user, at any later time, succeeds and changes nothing |
| OrganizationRuns.SingleModeSingleMembership | internal/organization/mode.go:26-47 | In single mode no run puts a user into two organizations |
| OrganizationRuns.EnsureInitialSingle | internal/organization/service.go:124-144 | For a user that already exists, ensuring the initial organization in single mode keeps to one membership exactly when the user belongs to nothing but teams the user created |
| OrganizationRuns.EffectKept | internal/organization/lifecycle.go:39-279 | Every operation keeps every invariant: foreign keys, one owner, personal organizations owned by their creator, one pending invitation per address, and what the mode rules out |
| OrganizationRuns.EffectEvolves | internal/organization/invitations.go:489-620 | An acceptance is of a pending row, and accepted rows stay as they are until they are deleted |
| OrganizationEffects.CreateInvitationIs | internal/organization/invitations.go:80-188 | When an invitation is created, and that it then is the only pending one of its address |
| OrganizationEffects.ResendInvitationIs | internal/organization/invitations.go:196-301 | When an invitation is sent again, and that the new row replaces the old one |
| OrganizationEffects.RevokeInvitationIs | internal/organization/invitations.go:392-449 | When an invitation is revoked, and that its address then has none pending |
| OrganizationEffects.AcceptIs | internal/organization/invitations.go:489-620 | When an acceptance takes effect, is a repetition or is refused, and what it changes |
| OrganizationEffects.EnsureInitialIs | internal/store/organizations.go:489-568 | When the initial organization is found, created or refused |
| OrganizationEffects.EnsuredTwice | internal/store/organizations.go:489-568 | Ensuring it again changes nothing |
| OrganizationEffects.UpdateMemberIs | internal/organization/service.go:360-418 | When a role may change; in personal mode never |
| OrganizationEffects.CreateOrganizationIs | internal/organization/service.go:172-218 | When a team may be created, and what it then is |
| OrganizationEffects.RemoveMemberIs | internal/organization/lifecycle.go:39-78 | A member is removed exactly from a team, where the mode allows it, by themselves, by an owner, or by an admin if the target is no owner, and never the owner; then exactly that membership goes; an actor without the role is told so |
| OrganizationEffects.DeleteOrganizationIs | internal/organization/lifecycle.go:80-109 | An organization is deleted exactly at its owner's word and if it is a team, in single mode once nobody else is in it; it goes with its memberships and invitations and nothing else |
| OrganizationEffects.TransferIs | internal/organization/lifecycle.go:111-203 | Ownership passes exactly from the owner of a team to another member of it; the old owner is left an admin and nothing else changes |
| OrganizationEffects.SignupIs | internal/auth/service.go:347-418 | A signup succeeds exactly for a new user and address, with an invitation only one that can be taken and not in personal mode; the user is then owner of the organization founded and a member, in the invited role, of the one that invited, and nothing else changes; a refusal changes nothing |
| OrganizationEffects.DeletedInvitations | internal/store/users.go:297-322 | What the deletion of a user does to invitations and organizations: those to the address or accepted by the user go, and elsewhere the user is no longer named |
| OrganizationService.OrganizationService.PrepareUserDeletion | internal/organization/lifecycle.go:208-279 | Lock, check and apply loops over a listing read before the locks: either the first obstacle's error and no change, or all of the user's memberships and doomed organizations gone |
| OrganizationService.OrganizationService.LockOrganizations | internal/organization/lifecycle.go:217-240 | The locking loop keeps, in order, the organizations that still exist and still have the user, with their rows and members |
| OrganizationService.OrganizationService.CheckLocked | internal/organization/lifecycle.go:242-260 | The checking loop returns the first obstacle |
| OrganizationService.OrganizationService.DeleteUser | internal/auth/service.go:134-191 | The deletion around it: invitations to or accepted by the user go, other references become null |
| OrganizationService.OrganizationService.RemoveOrganizationMember | internal/organization/lifecycle.go:39-78 | Removal with its refusals in order, members and owners counted from the rows listed; on reachable tables exactly who may remove whom, and that exactly that membership goes |
| OrganizationService.OrganizationService.DeleteOrganization | internal/organization/lifecycle.go:80-109 | On reachable tables it succeeds exactly for the owner of a team, in single mode only when alone, and removes exactly the organization, its memberships and its invitations |
| OrganizationService.OrganizationService.TransferOrganizationOwnership | internal/organization/lifecycle.go:111-203 | The old owner steps down to admin before the new one is promoted; on reachable tables it succeeds exactly for the owner of a team and another member of it, and changes their two roles only |
| OrganizationService.CountOwners | internal/organization/lifecycle.go:361-369 | The counting loop counts the owners among the rows |
| OrganizationService.ListMembers | internal/store/organizations.go:254-275 | The listing holds each membership row of the organization once |
| OrganizationService.OrganizationService.UpdateOrganizationMember | internal/organization/service.go:360-418 | On reachable tables it succeeds exactly when an owner or admin of the organization gives a member who is not the owner a role below owner; nobody joins, leaves, gains or loses ownership, and the invariants survive |
| OrganizationService.OrganizationService.CreateOrganization | internal/organization/service.go:172-218 | It succeeds exactly in multi mode for an existing user; then the team has that user as owner and only member, every other organization keeps its members and owners, and the invariants survive; otherwise nothing changes |
| OrganizationService.OrganizationService.EnsureInitialOrganization | internal/store/organizations.go:489-568 | On reachable tables it fails exactly for invitees in personal mode, missing users, and users who no longer belong to the organization of the kind they created; it changes something only when the user created none, and then opens one with the user as owner and only member |
| OrganizationService.OrganizationService.CreateInvitation | internal/organization/invitations.go:80-188 | On reachable tables it succeeds exactly when an owner or admin invites, below owner, an address of nobody in the organization whose pending row, if any, has expired; then the new row is the only pending one of the address, the expired one is revoked, no other row changes, and the invariants survive; a refusal changes nothing |
| OrganizationService.OrganizationService.ResendInvitation | internal/organization/invitations.go:196-301 | It succeeds exactly for the organization's pending rows, expired or not, of an address of nobody in it; then the new row is the only pending one of the address and the old one is revoked; otherwise nothing changes |
| OrganizationService.OrganizationService.RevokeInvitation | internal/organization/invitations.go:392-449 | It succeeds exactly for a pending, unexpired row of the organization, with a revoker who exists if one is named, and leaves the address without a pending row; otherwise nothing changes |
| OrganizationService.OrganizationService.AcceptInvitation | internal/organization/invitations.go:489-620 | It takes effect exactly for a pending, unexpired invitation of the user's own address, in single mode only if the user belongs to nothing else; then the user is a member with the invited role, or as before, the row is marked, ownership and all other rows stay; otherwise nothing changes, and the invariants survive |
| TemplateMeaning.RewritingPreservesMeaning | internal/email/template_service.go:395-424 | For every accepted source, the rewritten text renders as the source with each placeholder replaced by its value, values never read again, exactly when no literal before a placeholder ends in a brace; otherwise the renderer refuses it |
| TemplateMeaning.ThreeBraces | internal/email/template_service.go:455-510 | The excluded sources exist: a brace just before a placeholder passes the rewriter and fails in the renderer |
| TemplateMeaning.AcceptedIff | internal/email/template_service.go:455-510 | A source is accepted exactly when it is not all white space, no literal holds a delimiter, every name is allowed and every required name occurs; the error for an empty part is for white space alone |
| TemplateMeaning.ErrorsPoint | internal/email/template_diagnostic.go:156-169 | A rejected delimiter's offset is a real delimiter outside every placeholder, and the first such; an unknown variable's offset starts its placeholder |
| TemplateMeaning.SegmentsPartition | internal/email/template_service.go:465-497 | Literals and placeholders in turn are the source |
| TemplateMeaning.EvalRewritten | internal/email/template_service.go:480-497 | The induction over the matches behind it |
| Template.Prepare | internal/email/template_service.go:455-510 | prepareTemplatePart, loop by loop: the first error in source order with its offset, or the rewritten text |
| Template.MalformedOffset | internal/email/template_diagnostic.go:156-169 | The first of either delimiter |
| Template.MatchAtOnly | internal/email/template_service.go:26 | The placeholder pattern has at most one match at a position |
| Template.FindFromLeftmost | internal/email/template_service.go:460 | The matches are the leftmost ones, without overlaps |
| Template.LeftmostOnly | internal/email/template_service.go:460 | Leftmost matches are unique |
| RateLimiterRuns.CacheIsMemoryOffGaps | internal/ratelimiter/cache.go:104-124 | From empty counters, with instants in nanoseconds that the server cuts to milliseconds, the two limiters answer every sequence of attempts by address alike, whenever sweeps run, as long as no attempt comes between the two ends of its caller's window: the in-memory end, and the end of the millisecond in which the Redis key is due |
| RateLimiterRuns.FirstDifference | internal/ratelimiter/cache.go:104-124 | After attempts outside these gaps, the answers first differ at an attempt exactly when it comes in its caller's gap and the attempts of that window have used the limit up |
| RateLimiterRuns.AnswersDiffer | internal/ratelimiter/memory.go:359-369 | For one caller whose counters are of the same window, the answers to an attempt differ exactly in the gap with the limit used up |
| RateLimiterRuns.WholeWindowGap | internal/ratelimiter/memory.go:359-369 | The gap of a window of whole milliseconds: from the in-memory reset to the end of the millisecond the reset falls in |
| RateLimiterRuns.GapIs | internal/ratelimiter/memory.go:359-369 | The gap of any window is shorter than a millisecond on either side of the in-memory reset |
| RateLimiterRuns.SecondAttempt | internal/ratelimiter/memory.go:359-369 | Two attempts of a caller who may make one: the second is answered differently exactly when it comes in the gap of the first one's window |
| RateLimiterRuns.GapExamples | internal/ratelimiter/memory.go:359-369 | Instants in and out of gaps, among them one at which the cache is the first to forget |
| RateLimiterRuns.SameNext | internal/ratelimiter/memory.go:249-281 | The relation every attempt outside the gaps keeps: each limiter's counter lives to its own end of the window, the cache counts every attempt of the window and the memory counts up to the limit |
| RateLimiterRuns.AtMostTwiceTheLimit | internal/ratelimiter/memory.go:249-281 | In any run and any interval one window long, at most twice the limit of one caller's attempts gets through |
| RateLimiterRuns.RetryAfterIsExact | internal/ratelimiter/memory.go:352-357 | The wait named by a refusal in memory is positive and exact: whatever attempts and sweeps come before it is over, the caller is let through again once it is over and not before |
| RateLimiterRuns.CacheRetryAfter | internal/ratelimiter/cache.go:104-124 | The wait named by the cache is not: whatever attempts come before it is over, the caller is let through only from the millisecond after its end on |
| RateLimiterRuns.DecideIPIs | internal/ratelimiter/memory.go:249-281 | An attempt is let through exactly if fewer than the limit have been counted since the counter in force began; then it is counted, otherwise the refusal names the time to the counter's reset; no other counter changes |
| RateLimiterRuns.BothOrNeither | internal/ratelimiter/memory.go:283-330 | In memory a two-key attempt counts on both keys if it is let through and on neither if it is refused; it is let through exactly when both are below their limits, the address refuses first, and a refusal names the time to the reset of the counter that refused |
| RateLimiterRuns.SweepUnseen | internal/ratelimiter/memory.go:371-390 | Sweeping never changes what a later attempt finds |
| RateLimiterRuns.KeptIsMaintained | internal/ratelimiter/memory.go:264-268 | While the entries stay within the cap, the housekeeping of the limiter is the sweep alone |
| RateLimiterRuns.CacheLimiter.AllowIP | internal/ratelimiter/cache.go:104-124 | One increment, with the window cut to milliseconds, and the comparison with the limit |
| RateLimiterRuns.CacheLimiter.Allow | internal/ratelimiter/cache.go:126-163 | The address is counted before the other key is looked at and stays counted if that one refuses |
| RateLimiter.InMemoryLimiter.AllowIP | internal/ratelimiter/memory.go:249-281 | Housekeeping when due, then the decision and its new table |
| RateLimiter.InMemoryLimiter.Allow | internal/ratelimiter/memory.go:283-330 | The two-key decision; both counters are read before either is incremented |
| RateLimiter.InMemoryLimiter.EnforceMaxEntries | internal/ratelimiter/memory.go:392-423 | Over the cap, eviction ends within it with at most nine entries to spare; a table, an email table in particular, loses a second entry only when every table before it is empty; within the cap nothing goes; the running total is the true sum throughout |
| RateLimiter.InMemoryLimiter.ClearTable | internal/ratelimiter/memory.go:403-411 | One table's eviction: an entry goes before the total is compared, and it stops at the cap |
| RateLimiter.InMemoryLimiter.SweepExpired | internal/ratelimiter/memory.go:371-390 | Exactly the counters whose reset has come go |
| RateLimiter.InMemoryLimiter.GetCounter | internal/ratelimiter/memory.go:359-369 | The counter in force, or a new one in its place |
| Password.DecodeEncoded | internal/auth/password.go:124-203 | Any parameters, salt and hash come back as they were exactly when they lie in the accepted ranges; otherwise the first range violated is the error |
| Password.DecodedIs | internal/auth/password.go:143-210 | Of all texts, exactly those are read whose eight fields between dollar signs are the algorithm, the version, three 32-bit numbers behind their letters and two base64 texts, all within the accepted ranges; each kind of refusal is for the first field that is not as it should be |
| Password.SplitJoins | internal/auth/password.go:143-147 | The fields hold no dollar sign and, joined by dollar signs, are the text |
| Password.FreshHashVerifies | internal/auth/password.go:58-122 | A fresh hash accepts its own password, and any other only if it derives the same key, and never asks for a rehash |
| Password.VerifyIs | internal/auth/password.go:83-122 | Any hash in the accepted ranges is accepted exactly for the passwords that derive its key, and asks for a rehash exactly when accepted with one of its five measures below today's |
| Base64.DecodeEncode | internal/auth/password.go:126-140 | Unpadded base64 read back is what was written, whatever the bytes |
| Base64.BytesOfSextets | internal/auth/password.go:126-140 | Regrouping bytes into six-bit digits and back loses no bit, for every length modulo three |
| Password.EncodedSplit | internal/auth/password.go:143-147 | The printed hash splits at its dollar signs into its eight fields |
| Password.ParsePrinted | internal/auth/password.go:205-210 | A printed 32-bit parameter parses back |
| Maintenance.DueJobsRun | internal/maintenance/coordinator.go:253-280 | From the first pass that starts when a job is due, though it came due while the scheduler was waiting, at most n-1 passes of other jobs start before it, and no job twice, in any run with a clock that does not go back |
| Maintenance.PicksBefore | internal/maintenance/coordinator.go:253-280 | While a job due at the start of the next pass waits, jobs that have run are later than it and are not picked again |
| Maintenance.RunsExist | internal/maintenance/coordinator.go:253-280 | The scheduler can always go on, however long passes take and however they end short of cancellation |
| Maintenance.RunScheduler | internal/maintenance/coordinator.go:253-280 | The scheduling loop picks and reschedules as specified, for any number of passes |
| Maintenance.NextIs | internal/maintenance/coordinator.go:272-279 | After a pass no job moves but the first of the earliest, which is due again an interval after the pass, or sooner by exactly the continuation interval when batches remain |
| Maintenance.FindEarliest | internal/maintenance/coordinator.go:260-266 | The index loop finds the first of the earliest times |
| Maintenance.RunJob | internal/maintenance/coordinator.go:282-340 | A pass runs between one and MaxBatches batches and stops early only for a reason; it is completed exactly when its last batch committed under the lease and said nothing remained, and the other three outcomes are characterised as sharply |
| Maintenance.Normalized | internal/maintenance/coordinator.go:69-116 | An accepted configuration has positive values, renews its lease before it ends and ends a pass before the lease does |
| Maintenance.NormalizedIs | internal/maintenance/coordinator.go:69-116 | A configuration is accepted exactly when the lease outlasts its renewal and a pass and every interval is positive, with the defaults in nanoseconds for what is not positive; otherwise what was given is kept |
| Challenge.ChallengesHold | internal/challenge/service.go:261-371 | Over every run, counted wrong codes and resends stay within their limits, no follow-up action takes effect twice, and a challenge is consumed exactly if its action took effect |
| Challenge.ClosedForever | internal/challenge/service.go:331-346 | A challenge whose attempts are used up, or that is deleted unconsumed, never has its action take effect later |
| Challenge.Lifetime | internal/challenge/service.go:121-329 | From the empty store, a challenge that is created, mailed, sent again and verified has its action take effect exactly if the code given is the one stored and comes to the last instant of both deadlines, and is sent again exactly from the end of the interval to its deadline |
| Challenge.CleanupIs | internal/store/challange.go:286-303 | The cleanup, batch after batch until none is left, removes exactly the challenges past their deadline |
| Challenge.VerificationEffects | internal/challenge/service.go:261-329 | One verification: a failing hook undoes everything, a wrong code is counted although the call fails, the consumed error never follows the action, and the action takes effect exactly in successful calls |
| Challenge.VerifiedIs | internal/challenge/service.go:261-329 | A verification succeeds exactly for a stored, unconsumed, unexpired challenge of the purpose with attempts left, whose unexpired stored code equals the one given, and whose hooks succeed; it is refused for its code exactly when all is so but the code; the first consumes the challenge and records the action, the second counts one attempt, anything else changes nothing |
| Challenge.ActionsNeedCodes | internal/challenge/service.go:285-321 | Over every run, a follow-up action took effect exactly if some call presented the code that was stored and unexpired for its challenge at that point of the run |
| Challenge.ChallengeService.VerifyChallenge | internal/challenge/service.go:261-329 | The transaction, with the errors that commit and those that roll back, exactly when it succeeds, and exactly when it refuses the code; the branch for a challenge consumed after the action is shown unreachable under the row lock |
| Challenge.ChallengeService.ResendChallenge | internal/challenge/service.go:167-213 | A resend succeeds exactly for an unconsumed, unexpired challenge with resends left whose interval has passed and whose pending action and template are there; then one resend is counted within the limit, one mail is queued with the row's own deadline and nothing else changes; a refusal changes nothing |
| Challenge.ResendsSpaced | internal/challenge/service.go:167-213 | Two resends are never closer than the challenge's interval, and both come before its deadline and within its limit |
| Challenge.ChallengeService.CreateChallenge | internal/challenge/service.go:121-165 | A created challenge can be verified exactly until its deadline, its mail carries that deadline, and no other row changes; a refusal changes nothing |
| Challenge.ResentIs | internal/challenge/service.go:167-213 | When a resend succeeds and what it counts |
| Challenge.CreatedIs | internal/challenge/service.go:121-165 | When a creation succeeds and what it leaves |
| EmailRetry.NominalDelay | internal/challenge/worker.go:383-398 | The doubling loop computes the smaller of base times 2 to the attempt minus one and the cap, and no value on the way exceeds the larger of base and cap |
| EmailRetry.NominalMonotone | internal/challenge/worker.go:383-398 | A later attempt never has a shorter nominal delay |
| EmailRetry.DelayBounds | internal/challenge/worker.go:399-405 | The jittered delay lies between half of the nominal delay and all of it |
| EmailRetry.DelayIs | internal/challenge/worker.go:399-405 | The share of the second half follows the random number, cut to nothing below zero and to all but a billionth from one on |
| EmailRetry.RunClaimed | internal/challenge/worker.go:264-347 | After a claim: exactly when a job is sent, failed for each reason or requeued, and a requeued one is never due past its delivery deadline |
| Username.SanitizeUsername | internal/auth/username.go:56-93 | The rune loop and the trims compute the specified text |
| Username.SanitizedIsClean | internal/auth/username.go:50-93 | The sanitized text has valid characters, no doubled dash, no dash or underscore at either end, and fits in twenty-four |
| Username.SanitizedFixed | internal/auth/username.go:56-93 | Sanitizing leaves a text as it is exactly when it is already clean, so sanitizing twice is sanitizing once |
| Username.GeneratedIsValid | internal/auth/username.go:95-115 | For every address a generated username is valid, and its length is thirty exactly when the kept part has twenty-four characters |
| Username.GeneratedIsLower | internal/auth/username.go:95-115 | A generated username is the kept part, or the word user if nothing is kept, letter for letter in lower case, then a dash and the digits |
| Username.ThirtyReached | internal/auth/username.go:95-115 | The bound is met by every address whose local part is a clean text of twenty-four |

## Left out

- HTTP handlers, cookies, SMTP, webhooks, logging, metrics, security events and audit rows: no hard property.
- Cryptography, randomness, token signing and WebAuthn: parameters or freshness assumptions.
- Roles, disabled users, allowlist, passkeys and recent authentication in the session transactions: one flag says
  whether those checks let the call go on.
- The sessions deleted and markers written when a membership or organization goes: `Organizations` has no session table.
- Names, metadata, delivery profiles and the mail of organizations and invitations: they decide nothing else.
- Canonicalisation of email addresses: user rows hold canonical addresses, and an address that does not parse is a
  missing one.
- Settings that stand alone, rate-limit counts among them: each has its own bound and no group. The settings kept are
  those that constrain one another.
- Reading and printing setting texts, JSON and the order of stored rows: a row holds its value, and one that does not
  decode has the wrong type.
- An error of the settings store other than a failed load or a conflict.
- html/template escaping and the regular-expression engine: the text renderer and the one placeholder pattern are
  modelled, on texts of one-byte characters with ASCII white space.
- lineAtOffset and the line guesses for HTML errors: they only count newlines.
- TemplateMeaning.RewritingPreservesMeaning: actions other than a lookup by name are outside the evaluator, which the
  rewriter never writes.
- RateLimiterRuns.CacheIsMemoryOffGaps: cache errors and the second key are in the methods but not in this comparison,
  limits and windows do not change on the way, and entries stay within the in-memory cap.
- RateLimiterRuns.AtMostTwiceTheLimit: about the in-memory limiter without eviction of the caller's counter.
- Counter keys with an address or email normalised differently: keys are taken after normalisation.
- The lease protocol around the scheduler, its timers and goroutines: a pass starts no earlier than its job is due.
- EmailRetry.DelayBounds: real arithmetic, no floating-point rounding.
- reapStale and the SQL that requeues stale jobs: the loop only adds up what the statement returns.
- The contents of challenge hooks: whether they succeed, and a record of follow-up actions that took effect.
- CreateOpaqueChallenge: the creation without a pending action or mail.
- Username.EnsureUsername: the five digits are a parameter; failing randomness is not modelled.
- The guards for the last administrator and the last authentication method, and the OAuth challenge service: the same
  shape as what is modelled, only easier.
