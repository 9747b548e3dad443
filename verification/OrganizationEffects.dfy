/** When the operations of OrganizationService succeed, and what they then change, on tables that
    satisfy the invariant of OrganizationRuns. */
module OrganizationEffects {
  import opened Wrappers
  import opened Organizations
  import opened OrganizationRuns

  /** The organizations but `org` have the members and the owners they had. */
  ghost predicate OthersKept(before: Db, after: Db, org: nat) {
    forall o, u | o != org ::
      IsMember(after, o, u) == IsMember(before, o, u) && IsOwner(after, o, u) == IsOwner(before, o, u)
  }

  // Organizations

  /** A new organization, with one member, who owns it. */
  ghost predicate Opened(before: Db, after: Db, kind: Kind, founder: nat, org: nat) {
    && after.orgs == before.orgs[org := Org(kind, Some(founder))]
    && (forall u :: IsMember(after, org, u) <==> u == founder) && IsOwner(after, org, founder)
    && OthersKept(before, after, org)
    && after.users == before.users && after.invitations == before.invitations
  }

  lemma OpenedBy(db: Db, kind: Kind, founder: nat, org: nat)
    requires TablesOk(db) && org !in db.orgs
    ensures Opened(db, WithMember(db.(orgs := db.orgs[org := Org(kind, Some(founder))]), org, founder, Owner), kind,
                   founder, org)
  {
  }

  predicate MayCreateTeam(mode: Mode, db: Db, actor: Option<nat>, newId: nat) {
    mode == MultiMode && actor.Some? && actor.value in db.users && newId !in db.orgs
  }

  lemma CreateOrganizationIs(mode: Mode, db: Db, actor: Option<nat>, newId: nat)
    requires Inv(mode, db)
    ensures var outcome := CreateOrganization(mode, db, actor, newId);
      && (outcome.result.Ok? <==> MayCreateTeam(mode, db, actor, newId))
      && (outcome.result.Ok? ==> Opened(db, outcome.db, Team, actor.value, newId))
      && (outcome.result.Err? ==> outcome.db == db)
  {
    hide Opened;
    if newId !in db.orgs && actor.Some? {
      OpenedBy(db, Team, actor.value, newId);
    }
    hide Inv;
  }

  /** The user's own organization of a kind: none, or the one a query finds. */
  ghost predicate FindsCreated(db: Db, user: nat, kind: Kind, found: nat) {
    CreatedBy(db, user, kind) != {} ==> found in CreatedBy(db, user, kind)
  }

  /** Nothing is to be ensured, or the user is new to the kind or still belongs to the one created. */
  predicate MayEnsure(mode: Mode, db: Db, user: nat, invited: bool, found: nat) {
    if mode == PersonalMode && invited then false
    else if mode == SingleMode && invited then true
    else
      var kind := if mode == SingleMode then Team else Personal;
      user in db.users && (CreatedBy(db, user, kind) == {} || IsMember(db, found, user))
  }

  lemma EnsureInitialIs(mode: Mode, db: Db, user: nat, invited: bool, newId: nat, found: nat)
    requires Inv(mode, db) && newId !in db.orgs
    requires FindsCreated(db, user, if mode == SingleMode then Team else Personal, found)
    ensures var kind := if mode == SingleMode then Team else Personal;
      var outcome := EnsureInitial(mode, db, user, invited, newId, found);
      && (outcome.result.Ok? <==> MayEnsure(mode, db, user, invited, found))
      && (outcome.result == Ok(true) <==>
            MayEnsure(mode, db, user, invited, found) && !(mode == SingleMode && invited) &&
                CreatedBy(db, user, kind) == {})
      && (outcome.result == Ok(true) ==> Opened(db, outcome.db, kind, user, newId))
      && (outcome.result != Ok(true) ==> outcome.db == db)
  {
    hide Opened;
    var kind := if mode == SingleMode then Team else Personal;
    OpenedBy(db, kind, user, newId);
    HasOwnerIsOwned(db, found);
  }

  /** Ensuring the initial organization again changes nothing. */
  lemma EnsuredTwice(mode: Mode, db: Db, user: nat, invited: bool, newId: nat, found: nat, laterId: nat)
    requires Inv(mode, db) && EnsureInitial(mode, db, user, invited, newId, found).result == Ok(true)
    requires laterId !in db.orgs && laterId != newId
    ensures var ensured := EnsureInitial(mode, db, user, invited, newId, found).db;
      EnsureInitial(mode, ensured, user, invited, laterId, newId) == Outcome(ensured, Ok(false))
  {
    var kind := PlanFor(mode, invited).value.kind;
    var ensured := EnsureInitial(mode, db, user, invited, newId, found).db;
    assert CreatedBy(db, user, kind) == {} by {
      HasOwnerIsOwned(db, found);
    }
    assert newId in CreatedBy(ensured, user, kind);
  }

  predicate MayChangeRole(db: Db, org: nat, user: nat, actor: nat, role: Role) {
    && role != Owner && IsMember(db, org, user) && !IsOwner(db, org, user)
    && IsMember(db, org, actor) && db.members[(org, actor)] != Member
  }

  /** Ownership and membership stay as they are; in personal mode there is nobody whose role could change. */
  lemma UpdateMemberIs(mode: Mode, db: Db, org: nat, user: nat, actor: nat, role: Role)
    requires Inv(mode, db)
    ensures var outcome := UpdateMember(db, org, user, actor, role);
      && (outcome.result.Ok? <==> MayChangeRole(db, org, user, actor, role))
      && (outcome.result.Ok? ==>
            && outcome.result.value == (db.members[(org, user)] != role)
            && outcome.db == db.(members := db.members[(org, user) := role])
            && forall o, u ::
                 IsMember(outcome.db, o, u) == IsMember(db, o, u) && IsOwner(outcome.db, o, u) == IsOwner(db, o, u))
      && (outcome.result.Err? ==> outcome.db == db)
      && (mode == PersonalMode ==> outcome.result.Err?)
  {
    MemberKeys(mode, db, org, user);
    if mode == PersonalMode && IsMember(db, org, user) {
      PersonalMember(db, org, user);
    }
    hide Inv;
  }

  lemma MemberKeys(mode: Mode, db: Db, org: nat, user: nat)
    requires Inv(mode, db)
    ensures IsMember(db, org, user) ==> org in db.orgs && user in db.users
  {
  }

  lemma PersonalMember(db: Db, org: nat, user: nat)
    requires Inv(PersonalMode, db) && IsMember(db, org, user)
    ensures IsOwner(db, org, user)
  {
  }

  /** Who may remove whom: oneself, or as an owner or admin somebody else, but never an owner; from a
      personal organization only in multi mode, and never its creator. */
  predicate MayRemove(mode: Mode, db: Db, org: nat, user: nat, actor: nat) {
    && org in db.orgs && IsMember(db, org, actor) && IsMember(db, org, user)
    && (db.orgs[org].kind == Team ||
        (mode == MultiMode && db.orgs[org].createdBy.Some? && db.orgs[org].createdBy.value != user))
    && (actor == user || db.members[(org, actor)] == Owner || db.members[(org, actor)] == Admin)
    && db.members[(org, user)] != Owner
  }

  /** The actor may not remove this member: neither an owner nor, of somebody who is no owner, an admin. */
  predicate Forbidden(db: Db, org: nat, user: nat, actor: nat) {
    && IsMember(db, org, actor) && IsMember(db, org, user) && actor != user
    && (db.members[(org, actor)] == Member || (db.members[(org, actor)] == Admin && db.members[(org, user)] == Owner))
  }

  /** When a member is removed, and that nothing else is. On reachable tables the target is never the only
      member unless it is the owner, whom nobody removes. */
  lemma RemoveMemberIs(mode: Mode, db: Db, org: nat, user: nat, actor: nat)
    requires Inv(mode, db)
    ensures var outcome := RemoveMember(mode, db, org, user, actor);
      && (outcome.result.Ok? <==> MayRemove(mode, db, org, user, actor))
      && (outcome.result.Ok? ==> outcome.db == db.(members := db.members - {(org, user)}))
      && (outcome.result.Err? ==> outcome.db == db)
      && (outcome.result == Err(ActorNotAllowed) ==> Forbidden(db, org, user, actor))
      && (Forbidden(db, org, user, actor) && db.orgs[org].kind == Team ==> outcome.result == Err(ActorNotAllowed))
  {
    if org in db.orgs && IsMember(db, org, user) {
      RemovalCounts(mode, db, org, user);
    }
    if IsMember(db, org, actor) {
      MemberKeys(mode, db, org, actor);
    }
    hide Inv, MembersOf, OwnersOf;
  }

  lemma RemovalCounts(mode: Mode, db: Db, org: nat, user: nat)
    requires Inv(mode, db) && org in db.orgs && IsMember(db, org, user)
    ensures IsOwner(db, org, user) ==> |OwnersOf(db, org)| == 1
    ensures !IsOwner(db, org, user) ==> |MembersOf(db, org)| > 1
  {
    var owner :| IsOwner(db, org, owner);
    OwnersAre(db, org, owner);
    CountMembers(db, org, user);
    if owner != user {
      assert IsMember(db, org, owner);
    }
  }

  predicate MayDelete(mode: Mode, db: Db, org: nat, actor: nat) {
    && org in db.orgs && db.orgs[org].kind == Team
    && (org, actor) in db.members && db.members[(org, actor)] == Owner
  }

  /** A team goes at its owner's word, in single mode once nobody else is in it, with its memberships and
      invitations and nothing else. */
  lemma DeleteOrganizationIs(mode: Mode, db: Db, org: nat, actor: nat)
    requires Inv(mode, db)
    ensures var outcome := DeleteOrganization(mode, db, org, actor);
      && (outcome.result.Ok? <==>
            MayDelete(mode, db, org, actor) && (mode == SingleMode ==> forall u | IsMember(db, org, u) :: u == actor))
      && (outcome.result.Ok? ==> Vanished(db, outcome.db, org))
      && (outcome.result.Err? ==> outcome.db == db)
  {
    if IsMember(db, org, actor) {
      CountMembers(db, org, actor);
    }
    hide Inv, MembersOf;
  }

  /** The organization is gone with its rows, and no other row is. */
  ghost predicate Vanished(before: Db, after: Db, org: nat) {
    && after.users == before.users && after.orgs == before.orgs - {org}
    && (forall m :: m in after.members <==> m in before.members && m.0 != org)
    && (forall m <- after.members :: after.members[m] == before.members[m])
    && (forall i :: i in after.invitations <==> i in before.invitations && before.invitations[i].org != org)
    && (forall i <- after.invitations :: after.invitations[i] == before.invitations[i])
  }

  predicate MayTransfer(db: Db, org: nat, actor: nat, successor: nat) {
    && actor != successor && org in db.orgs && db.orgs[org].kind == Team
    && (org, actor) in db.members && db.members[(org, actor)] == Owner && (org, successor) in db.members
  }

  /** Ownership passes from its holder to another member of a team; the old owner is left an admin. */
  lemma TransferIs(mode: Mode, db: Db, org: nat, actor: nat, successor: nat)
    requires Inv(mode, db)
    ensures var outcome := TransferOwnership(db, org, actor, successor);
      && (outcome.result.Ok? <==> MayTransfer(db, org, actor, successor))
      && (outcome.result.Ok? ==>
            outcome.db == db.(members := db.members[(org, actor) := Admin][(org, successor) := Owner]))
      && (outcome.result.Err? ==> outcome.db == db)
  {
    MemberKeys(mode, db, org, actor);
    MemberKeys(mode, db, org, successor);
    hide Inv;
  }

  // Users

  /** What becomes of the invitations: those to the user's address and those the user accepted go, those
      of the organizations that go go too, and in the others the user is no longer named. */
  lemma DeletedInvitations(mode: Mode, db: Db, user: nat, listing: seq<nat>)
    requires Inv(mode, db) && DeleteUser(mode, db, user, listing).result.Ok?
    ensures var after := DeleteUser(mode, db, user, listing).db;
      && (forall i :: i in after.invitations <==>
            && i in db.invitations && db.invitations[i].email != db.users[user]
            && db.invitations[i].acceptedBy != Some(user) && !GoesWith(db, db.invitations[i].org, user))
      && (forall i <- after.invitations ::
            var was := db.invitations[i];
            && after.invitations[i].invitedBy == (if was.invitedBy == Some(user) then None else was.invitedBy)
            && after.invitations[i].revokedBy == (if was.revokedBy == Some(user) then None else was.revokedBy)
            && after.invitations[i] == was.(invitedBy := after.invitations[i].invitedBy,
                                            revokedBy := after.invitations[i].revokedBy))
      && (forall o <- after.orgs ::
            after.orgs[o] ==
            db.orgs[o].(createdBy := if db.orgs[o].createdBy == Some(user) then None else db.orgs[o].createdBy))
  {
    GoneOrgs(mode, db, user);
    hide GoesWith, Doomed;
  }

  // Invitations

  /** A row of the address that is neither accepted nor revoked. */
  predicate IsPending(db: Db, i: nat, org: nat, email: string) {
    && i in db.invitations
    && var row := db.invitations[i];
    row.org == org && row.email == email && row.acceptedAt.None? && row.revokedAt.None?
  }

  /** The answer of the query for a pending row of the address. */
  ghost predicate FindsPending(db: Db, org: nat, email: string, existing: Option<nat>) {
    if existing.Some? then IsPending(db, existing.value, org, email) else NonePending(db, org, email)
  }

  ghost predicate NonePending(db: Db, org: nat, email: string) {
    forall i :: !IsPending(db, i, org, email)
  }

  /** Nobody with this address is in the organization. */
  ghost predicate NotMember(db: Db, org: nat, email: string) {
    forall u | (org, u) in db.members && u in db.users :: db.users[u] != email
  }

  /** The address has one pending row, the new one; the pending row it had is revoked, and no other
      row changes. */
  ghost predicate Replaced(before: Db, after: Db, row: Invitation, newId: nat, revoker: Option<nat>, now: int) {
    && newId !in before.invitations && after.invitations.Keys == before.invitations.Keys + {newId}
    && after.invitations[newId] == row
    && (forall i <- before.invitations :: after.invitations[i] ==
          if IsPending(before, i, row.org, row.email)
          then before.invitations[i].(revokedAt := Some(now), revokedBy := revoker) else before.invitations[i])
    && (forall i :: IsPending(after, i, row.org, row.email) <==> i == newId)
    && after.users == before.users && after.orgs == before.orgs && after.members == before.members
  }

  lemma InsertedAlone(db: Db, row: Invitation, newId: nat, revoker: Option<nat>, now: int)
    requires NonePending(db, row.org, row.email) && row.Active()
    ensures Insert(db, newId, row).result.Ok? <==> newId !in db.invitations
    ensures Insert(db, newId, row).result.Ok? ==> Replaced(db, Insert(db, newId, row).db, row, newId, revoker, now)
  {
    PendingIsActive(db, row.org, row.email);
  }

  lemma PendingIsActive(db: Db, org: nat, email: string)
    ensures forall i :: IsPending(db, i, org, email) == ActiveFor(db, i, org, email)
  {
  }

  lemma InsertedInstead(db: Db, row: Invitation, was: nat, newId: nat, revoker: Option<nat>, now: int)
    requires SingleActive(db) && IsPending(db, was, row.org, row.email) && row.Active()
    ensures var t := MarkRevoked(db, was, revoker, now);
      && (Insert(t, newId, row).result.Ok? <==> newId !in db.invitations)
      && (Insert(t, newId, row).result.Ok? ==> Replaced(db, Insert(t, newId, row).db, row, newId, revoker, now))
  {
    var t := MarkRevoked(db, was, revoker, now);
    OnlyPending(db, row.org, row.email, was);
    forall i ensures !IsPending(t, i, row.org, row.email) {
      assert IsPending(t, i, row.org, row.email) && i != was ==> IsPending(db, i, row.org, row.email);
    }
    InsertedAlone(t, row, newId, revoker, now);
  }

  lemma NotMemberIs(db: Db, org: nat, email: string)
    ensures NotMember(db, org, email) <==> !TargetIsMember(db, org, email)
  {
    if !NotMember(db, org, email) {
      var u :| (org, u) in db.members && u in db.users && db.users[u] == email;
      assert IsMember(db, org, u);
    }
  }

  /** No row of the address can still be accepted. */
  ghost predicate PendingExpired(db: Db, org: nat, email: string, now: int) {
    forall i | IsPending(db, i, org, email) :: db.invitations[i].expiresAt <= now
  }

  lemma PendingExpiredIs(db: Db, org: nat, email: string, existing: Option<nat>, now: int)
    requires SingleActive(db) && FindsPending(db, org, email, existing)
    ensures PendingExpired(db, org, email, now) <==> existing.None? || db.invitations[existing.value].expiresAt <= now
    ensures existing.None? ==> NonePending(db, org, email)
  {
    if existing.Some? {
      OnlyPending(db, org, email, existing.value);
    }
  }

  ghost predicate MayInvite(mode: Mode, db: Db, org: nat, actor: Option<nat>, email: Option<string>, role: Option<Role>,
                            now: int, newId: nat) {
    && email.Some? && role != Some(Owner) && mode != PersonalMode
    && actor.Some? && IsMember(db, org, actor.value) && db.members[(org, actor.value)] != Member
    && NotMember(db, org, email.value) && newId !in db.invitations
    && PendingExpired(db, org, email.value, now)
  }

  lemma AddressInvited(db: Db, row: Invitation, revoker: Option<nat>, now: int, newId: nat, existing: Option<nat>)
    requires SingleActive(db) && FindsPending(db, row.org, row.email, existing) && row.Active()
    ensures var outcome := InviteAddress(db, row, revoker, now, newId, existing);
      && (outcome.result.Ok? <==> newId !in db.invitations && PendingExpired(db, row.org, row.email, now))
      && (outcome.result.Ok? ==> Replaced(db, outcome.db, row, newId, revoker, now))
      && (outcome.result.Err? ==> outcome.db == db)
  {
    hide Insert, MarkRevoked, Replaced;
    PendingExpiredIs(db, row.org, row.email, existing, now);
    if existing.None? {
      InsertedAlone(db, row, newId, revoker, now);
    } else {
      InsertedInstead(db, row, existing.value, newId, revoker, now);
    }
  }

  lemma TablesAt(mode: Mode, db: Db)
    requires Inv(mode, db)
    ensures Keys(db) && SingleActive(db)
  {
  }

  lemma CreateInvitationIs(mode: Mode, db: Db, org: nat, actor: Option<nat>, email: Option<string>, role: Option<Role>,
                           now: int, ttl: int, newId: nat, existing: Option<nat>)
    requires Inv(mode, db) && (email.Some? ==> FindsPending(db, org, email.value, existing))
    ensures var outcome := CreateInvitation(mode, db, org, actor, email, role, now, ttl, newId, existing);
      && (outcome.result.Ok? <==> MayInvite(mode, db, org, actor, email, role, now, newId))
      && (outcome.result.Ok? ==>
            var row := Invitation(org, email.value, if role.Some? then role.value else Member, actor, now + ttl,
                                  None, None, None, None);
            Replaced(db, outcome.db, row, newId, actor, now))
      && (outcome.result.Err? ==> outcome.db == db)
  {
    hide Inv, InviteAddress, Replaced, TargetIsMember, NotMember, PendingExpired;
    TablesAt(mode, db);
    hide SingleActive;
    if email.Some? {
      NotMemberIs(db, org, email.value);
    }
    if actor.Some? {
      MemberKeys(mode, db, org, actor.value);
    }
    if email.Some? && role != Some(Owner) {
      var row := NewInvitation(org, email.value, if role.Some? then role.value else Member, actor, now + ttl);
      AddressInvited(db, row, actor, now, newId, existing);
    }
  }

  lemma OnlyPending(db: Db, org: nat, email: string, was: nat)
    requires SingleActive(db) && IsPending(db, was, org, email)
    ensures forall i :: IsPending(db, i, org, email) <==> i == was
  {
    forall i | IsPending(db, i, org, email) ensures i == was {
      assert ActiveFor(db, i, db.invitations[was].org, db.invitations[was].email);
    }
  }

  ghost predicate MayResend(mode: Mode, db: Db, org: nat, i: nat, newId: nat) {
    && mode != PersonalMode && i in db.invitations && IsPending(db, i, org, db.invitations[i].email)
    && NotMember(db, org, db.invitations[i].email) && newId !in db.invitations
  }

  lemma ResendInvitationIs(mode: Mode, db: Db, org: nat, i: nat, now: int, ttl: int, newId: nat)
    requires Inv(mode, db)
    ensures var outcome := ResendInvitation(mode, db, org, i, now, ttl, newId);
      && (outcome.result.Ok? <==> MayResend(mode, db, org, i, newId))
      && (outcome.result.Ok? ==>
            var was := db.invitations[i];
            var row := Invitation(org, was.email, was.role, was.invitedBy, now + ttl, None, None, None, None);
            Replaced(db, outcome.db, row, newId, was.invitedBy, now))
      && (outcome.result.Err? ==> outcome.db == db)
  {
    assert SingleActive(db) && (i in db.invitations ==> db.invitations[i].org in db.orgs);
    if i in db.invitations {
      NotMemberIs(db, org, db.invitations[i].email);
    }
    hide Inv, SingleActive, Replaced, Insert, MarkRevoked, TargetIsMember, NotMember;
    if i in db.invitations && db.invitations[i].org == org && db.invitations[i].Active() {
      var was := db.invitations[i];
      InsertedInstead(db, NewInvitation(org, was.email, was.role, was.invitedBy, now + ttl), i, newId, was.invitedBy,
                      now);
    }
  }

  predicate MayRevoke(mode: Mode, db: Db, org: nat, i: nat, revoker: Option<nat>, now: int) {
    && mode != PersonalMode && (revoker.Some? ==> revoker.value in db.users)
    && i in db.invitations && IsPending(db, i, org, db.invitations[i].email) && now < db.invitations[i].expiresAt
  }

  /** After a revocation the address can be invited again: no row of it is pending. */
  lemma RevokeInvitationIs(mode: Mode, db: Db, org: nat, i: nat, revoker: Option<nat>, now: int)
    requires Inv(mode, db)
    ensures var outcome := RevokeInvitation(mode, db, org, i, revoker, now);
      && (outcome.result.Ok? <==> MayRevoke(mode, db, org, i, revoker, now))
      && (outcome.result.Ok? ==>
            var was := db.invitations[i];
            && outcome.db == db.(invitations := db.invitations[i := was.(revokedAt := Some(now), revokedBy := revoker)])
            && NonePending(outcome.db, org, was.email))
      && (outcome.result.Err? ==> outcome.db == db)
  {
    assert SingleActive(db) && (i in db.invitations ==> db.invitations[i].org in db.orgs);
    hide Inv, SingleActive;
    if MayRevoke(mode, db, org, i, revoker, now) {
      var email := db.invitations[i].email;
      var t := MarkRevoked(db, i, revoker, now);
      OnlyPending(db, org, email, i);
      forall j ensures !IsPending(t, j, org, email) {
        assert IsPending(t, j, org, email) && j != i ==> IsPending(db, j, org, email);
      }
    }
  }

  /** A pending invitation of the user's address, which in single mode the user may take up only as a
      member of nothing else. */
  ghost predicate MayAccept(mode: Mode, db: Db, user: nat, i: nat, now: int) {
    && mode != PersonalMode && i in db.invitations && user in db.users && db.users[user] == db.invitations[i].email
    && db.invitations[i].acceptedAt.None? && db.invitations[i].revokedAt.None? && now < db.invitations[i].expiresAt
    && (mode == SingleMode ==> forall o | IsMember(db, o, user) :: o == db.invitations[i].org)
  }

  /** The invitation is marked; its user is a member with the invited role, or as before. */
  ghost predicate Joined(before: Db, after: Db, user: nat, i: nat, now: int)
    requires i in before.invitations
  {
    var invitation := before.invitations[i];
    && after.invitations == before.invitations[i := invitation.(acceptedAt := Some(now), acceptedBy := Some(user))]
    && (forall o, u :: IsMember(after, o, u) <==> IsMember(before, o, u) || (o == invitation.org && u == user))
    && (forall o, u | IsMember(before, o, u) :: after.members[(o, u)] == before.members[(o, u)])
    && (!IsMember(before, invitation.org, user) ==> after.members[(invitation.org, user)] == invitation.role)
    && (forall o, u :: IsOwner(after, o, u) == IsOwner(before, o, u))
    && after.users == before.users && after.orgs == before.orgs
  }

  lemma JoinedBy(db: Db, user: nat, i: nat, now: int)
    requires i in db.invitations && db.invitations[i].role != Owner
    ensures var row := db.invitations[i];
      Joined(db, MarkAccepted(if IsMember(db, row.org, user) then db else WithMember(db, row.org, user, row.role), i,
                              user, now),
             user, i, now)
  {
  }

  lemma MayJoin(mode: Mode, db: Db, org: nat, user: nat)
    requires ModeOk(mode, db)
    ensures mode == SingleMode ==>
      ((forall o | IsMember(db, o, user) :: o == org) <==> IsMember(db, org, user) || OrgsOf(db, user) == {})
  {
    forall o ensures o in OrgsOf(db, user) <==> IsMember(db, o, user) {
      MemberListed(db, o, user);
    }
    if mode == SingleMode && IsMember(db, org, user) {
      OnlyOrg(db, org, user);
    }
  }

  lemma AcceptIs(mode: Mode, db: Db, user: nat, i: nat, now: int)
    requires Inv(mode, db)
    ensures var outcome := Accept(mode, db, user, i, now);
      && (outcome.result == Ok(true) <==> MayAccept(mode, db, user, i, now))
      && (outcome.result == Ok(true) ==> Joined(db, outcome.db, user, i, now))
      && (outcome.result == Ok(false) ==>
            i in db.invitations && db.invitations[i].acceptedBy == Some(user) &&
                IsMember(db, db.invitations[i].org, user))
      && (outcome.result != Ok(true) ==> outcome.db == db)
  {
    if i in db.invitations {
      var org := db.invitations[i].org;
      assert org in db.orgs && InvitationOk(db.invitations[i]);
      JoinedBy(db, user, i, now);
      MayJoin(mode, db, org, user);
    }
    hide Inv, InvitationOk, HasOwner, Joined, WithMember, MarkAccepted, OrgsOf;
  }

  lemma OnlyOrg(db: Db, org: nat, user: nat)
    requires ModeOk(SingleMode, db) && IsMember(db, org, user)
    ensures OrgsOf(db, user) == {org}
  {
    forall o ensures o in OrgsOf(db, user) <==> o == org {
      MemberListed(db, o, user);
    }
  }

  // Signup

  /** Whether signing up opens an organization: not in single mode on an invitation. */
  predicate Founds(mode: Mode, invitation: Option<nat>) {
    mode != SingleMode || invitation.None?
  }

  /** A new user with a free address; an invitation only outside personal mode, to this address, and still
      to be accepted. */
  ghost predicate MaySignup(mode: Mode, db: Db, user: nat, email: string, invitation: Option<nat>, now: int,
                            newId: nat)
  {
    && user !in db.users && (forall u <- db.users :: db.users[u] != email)
    && (Founds(mode, invitation) ==> newId !in db.orgs)
    && (invitation.Some? ==> mode != PersonalMode && MayTake(db, email, invitation.value, now))
  }

  /** The user is in the organization founded, as its owner, and in the one that sent the invitation, with
      the invited role; nobody else joins or leaves anything. */
  ghost predicate SignedUp(before: Db, after: Db, mode: Mode, user: nat, email: string, invitation: Option<nat>,
                           now: int, newId: nat)
  {
    && after.users == before.users[user := email]
    && after.orgs == (if Founds(mode, invitation)
                      then before.orgs[newId := Org(if mode == SingleMode then Team else Personal, Some(user))]
                      else before.orgs)
    && (forall o, u :: IsMember(after, o, u) <==>
          || IsMember(before, o, u)
          || (u == user && o == newId && Founds(mode, invitation))
          || (u == user && invitation.Some? && invitation.value in before.invitations &&
              o == before.invitations[invitation.value].org))
    && (forall o, u :: IsOwner(after, o, u) <==>
          IsOwner(before, o, u) || (u == user && o == newId && Founds(mode, invitation)))
    && after.invitations ==
         if invitation.Some? && invitation.value in before.invitations
         then before.invitations[invitation.value :=
                before.invitations[invitation.value].(acceptedAt := Some(now), acceptedBy := Some(user))]
         else before.invitations
  }

  lemma FoundsIs(mode: Mode, db: Db, user: nat, email: string, invitation: Option<nat>, newId: nat, found: nat)
    requires Inv(mode, db) && user !in db.users && !(mode == PersonalMode && invitation.Some?)
    ensures var added := db.(users := db.users[user := email]);
      var ensured := EnsureInitial(mode, added, user, invitation.Some?, newId, found);
      && Inv(mode, added) && Inv(mode, ensured.db) && OrgsOf(added, user) == {}
      && (ensured.result.Ok? <==> (Founds(mode, invitation) ==> newId !in db.orgs))
      && (ensured.result.Ok? ==>
            if Founds(mode, invitation)
            then Opened(added, ensured.db, if mode == SingleMode then Team else Personal, user, newId)
            else ensured.db == added)
  {
    var added := db.(users := db.users[user := email]);
    var kind := if mode == SingleMode then Team else Personal;
    AddedUser(mode, db, user, email, kind);
    FirstOrgKept(mode, added, user, invitation.Some?, newId, found);
    if newId !in db.orgs {
      EnsureInitialIs(mode, added, user, invitation.Some?, newId, found);
    }
    hide Inv, Opened;
  }

  /** The tables once the user is added and has an organization, if one is founded. */
  ghost predicate Ready(mode: Mode, db: Db, ensured: Db, user: nat, email: string, invitation: Option<nat>, newId: nat)
  {
    var added := db.(users := db.users[user := email]);
    && OrgsOf(added, user) == {}
    && if Founds(mode, invitation)
       then newId !in db.orgs && Opened(added, ensured, if mode == SingleMode then Team else Personal, user, newId)
       else ensured == added
  }

  lemma InvitationTaken(mode: Mode, db: Db, ensured: Db, user: nat, email: string, i: nat, now: int, newId: nat)
    requires Inv(mode, db) && Inv(mode, ensured) && mode != PersonalMode
    requires Ready(mode, db, ensured, user, email, Some(i), newId)
    ensures var taken := Accept(mode, ensured, user, i, now);
      && (taken.result.Ok? <==> MayTake(db, email, i, now)) && (taken.result.Ok? ==> taken.result.value)
      && (taken.result.Ok? ==> Joined(ensured, taken.db, user, i, now))
  {
    hide Inv, Accept, Joined, OrgsOf;
    var added := db.(users := db.users[user := email]);
    KeysAt(mode, db);
    AcceptIs(mode, ensured, user, i, now);
    forall o ensures !IsMember(added, o, user) {
      MemberListed(added, o, user);
    }
    assert mode == SingleMode ==> ensured == added;
    assert ensured.invitations == db.invitations && ensured.users == added.users;
    if i in db.invitations {
      assert !IsMember(ensured, db.invitations[i].org, user);
    }
    YesOrNo(Accept(mode, ensured, user, i, now).result);
  }

  lemma YesOrNo(result: Result<bool, Error>)
    ensures result.Ok? ==> result == Ok(true) || result == Ok(false)
  {
    if result.Ok? {
      var answer := result.value;
      assert result == Ok(answer);
    }
  }

  /** The invitation is to this address and can still be accepted. */
  predicate MayTake(db: Db, email: string, i: nat, now: int) {
    && i in db.invitations
    && var row := db.invitations[i];
    row.email == email && row.acceptedAt.None? && row.revokedAt.None? && now < row.expiresAt
  }

  lemma Joining(mode: Mode, db: Db, ensured: Db, after: Db, user: nat, email: string, i: nat, now: int, newId: nat)
    requires Ready(mode, db, ensured, user, email, Some(i), newId) && i in db.invitations
    requires Keys(db) && Joined(ensured, after, user, i, now)
    ensures SignedUp(db, after, mode, user, email, Some(i), now, newId)
  {
    var added := db.(users := db.users[user := email]);
    forall o, u ensures IsMember(added, o, u) == IsMember(db, o, u) && IsOwner(added, o, u) == IsOwner(db, o, u) {
    }
  }

  lemma NotJoining(mode: Mode, db: Db, ensured: Db, user: nat, email: string, now: int, newId: nat)
    requires Ready(mode, db, ensured, user, email, None, newId) && Keys(db)
    ensures SignedUp(db, ensured, mode, user, email, None, now, newId)
  {
    var added := db.(users := db.users[user := email]);
    forall o, u ensures IsMember(added, o, u) == IsMember(db, o, u) && IsOwner(added, o, u) == IsOwner(db, o, u) {
    }
  }

  lemma SignupIs(mode: Mode, db: Db, user: nat, email: string, invitation: Option<nat>, now: int, newId: nat,
                 found: nat)
    requires Inv(mode, db)
    ensures var outcome := Signup(mode, db, user, email, invitation, now, newId, found);
      && (outcome.result.Ok? <==> MaySignup(mode, db, user, email, invitation, now, newId))
      && (outcome.result.Ok? ==> SignedUp(db, outcome.db, mode, user, email, invitation, now, newId))
      && (outcome.result.Err? ==> outcome.db == db)
  {
    hide Inv, EnsureInitial, Accept, Ready, SignedUp, OrgsOf, Joined, Opened;
    assert email in db.users.Values <==> exists u <- db.users :: db.users[u] == email;
    KeysAt(mode, db);
    if user !in db.users && !(mode == PersonalMode && invitation.Some?) {
      var added := db.(users := db.users[user := email]);
      var ensured := EnsureInitial(mode, added, user, invitation.Some?, newId, found);
      FoundsIs(mode, db, user, email, invitation, newId, found);
      if ensured.result.Ok? {
        ReadyIs(mode, db, ensured.db, user, email, invitation, newId);
        if invitation.None? {
          NotJoining(mode, db, ensured.db, user, email, now, newId);
        } else {
          var taken := Accept(mode, ensured.db, user, invitation.value, now);
          InvitationTaken(mode, db, ensured.db, user, email, invitation.value, now, newId);
          if taken.result.Ok? {
            Joining(mode, db, ensured.db, taken.db, user, email, invitation.value, now, newId);
          }
        }
      }
    }
  }

  lemma KeysAt(mode: Mode, db: Db)
    requires Inv(mode, db)
    ensures Keys(db)
  {
  }

  lemma ReadyIs(mode: Mode, db: Db, ensured: Db, user: nat, email: string, invitation: Option<nat>, newId: nat)
    requires OrgsOf(db.(users := db.users[user := email]), user) == {}
    requires Founds(mode, invitation) ==> newId !in db.orgs
    requires if Founds(mode, invitation)
             then Opened(db.(users := db.users[user := email]), ensured, if mode == SingleMode then Team else Personal,
                         user, newId)
             else ensured == db.(users := db.users[user := email])
    ensures Ready(mode, db, ensured, user, email, invitation, newId)
  {
  }
}
