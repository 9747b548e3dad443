/** What every operation on organizations keeps, and what runs of them guarantee. */
module OrganizationRuns {
  import opened Wrappers
  import opened Organizations

  // Invariants

  /** Foreign keys. */
  ghost predicate Keys(db: Db) {
    && (forall m <- db.members :: m.0 in db.orgs && m.1 in db.users)
    && (forall o <- db.orgs | db.orgs[o].createdBy.Some? :: db.orgs[o].createdBy.value in db.users)
    && (forall i <- db.invitations :: db.invitations[i].org in db.orgs)
  }

  /** At most one owner: the unique index of migration 032. */
  ghost predicate SingleOwner(db: Db) {
    forall o, u, v | IsOwner(db, o, u) && IsOwner(db, o, v) :: u == v
  }

  ghost predicate Owned(db: Db, org: nat) {
    exists u :: IsOwner(db, org, u)
  }

  ghost predicate AllOwned(db: Db) {
    forall o <- db.orgs :: Owned(db, o)
  }

  /** A personal organization still has its creator, who owns it. */
  ghost predicate PersonalOwned(db: Db) {
    forall o <- db.orgs | db.orgs[o].kind == Personal ::
        db.orgs[o].createdBy.Some? && IsOwner(db, o, db.orgs[o].createdBy.value)
  }

  /** At most one pending row per organization and address: the unique index of migration 013. */
  ghost predicate SingleActive(db: Db) {
    forall i, j <- db.invitations ::
      ActiveFor(db, i, db.invitations[j].org, db.invitations[j].email) && db.invitations[j].Active() ==> i == j
  }

  ghost predicate InvitationOk(invitation: Invitation) {
    && (invitation.acceptedAt.None? || invitation.revokedAt.None?)
    && (invitation.acceptedAt.Some? <==> invitation.acceptedBy.Some?)
    && invitation.role != Owner
  }

  ghost predicate InvitationsOk(db: Db) {
    forall i <- db.invitations :: InvitationOk(db.invitations[i])
  }

  /** What the mode rules out. */
  ghost predicate ModeOk(mode: Mode, db: Db) {
    match mode
    case PersonalMode =>
      db.invitations == map[] &&
      forall m <- db.members :: m.0 in db.orgs && db.orgs[m.0] == Org(Personal, Some(m.1))
    case SingleMode =>
      && (forall o <- db.orgs :: db.orgs[o].kind == Team)
      && (forall o, p, u | IsMember(db, o, u) && IsMember(db, p, u) :: o == p)
    case MultiMode => true
  }

  /** Everything but who owns what an operation is about to fill in. */
  ghost predicate TablesOk(db: Db) {
    Keys(db) && SingleOwner(db) && PersonalOwned(db) && SingleActive(db) && InvitationsOk(db)
  }

  ghost predicate Inv(mode: Mode, db: Db) {
    TablesOk(db) && AllOwned(db) && ModeOk(mode, db)
  }

  ghost predicate OwnersKept(before: Db, after: Db) {
    forall o | o in after.orgs && Owned(before, o) :: Owned(after, o)
  }

  /** Pending rows of the new table come from pending rows of the old one. */
  lemma SingleActiveFrom(before: Db, after: Db)
    requires SingleActive(before)
    requires forall i <- after.invitations | after.invitations[i].Active() ::
      i in before.invitations && before.invitations[i].Active() &&
      before.invitations[i].org == after.invitations[i].org && before.invitations[i].email == after.invitations[i].email
    ensures SingleActive(after)
  {
    forall i, j <- after.invitations
      | ActiveFor(after, i, after.invitations[j].org, after.invitations[j].email) && after.invitations[j].Active()
      ensures i == j
    {
      assert ActiveFor(before, i, before.invitations[j].org, before.invitations[j].email);
    }
  }

  // Row operations

  lemma AddedMember(db: Db, org: nat, user: nat, role: Role)
    requires TablesOk(db) && org in db.orgs && user in db.users
    requires IsMember(db, org, user) ==> role != Owner && !IsOwner(db, org, user)
    requires role == Owner ==> !Owned(db, org)
    ensures TablesOk(WithMember(db, org, user, role)) && OwnersKept(db, WithMember(db, org, user, role))
    ensures role == Owner ==> Owned(WithMember(db, org, user, role), org)
  {
    var t := WithMember(db, org, user, role);
    forall o | Owned(db, o) ensures Owned(t, o) {
      var u :| IsOwner(db, o, u);
      assert IsOwner(t, o, u);
    }
    if role == Owner {
      assert IsOwner(t, org, user);
    }
    forall o, u, v | IsOwner(t, o, u) && IsOwner(t, o, v) ensures u == v {
      assert u != user || o != org ==> IsOwner(db, o, u);
      assert v != user || o != org ==> IsOwner(db, o, v);
    }
    SingleActiveFrom(db, t);
  }

  lemma RemovedMembers(before: Db, after: Db)
    requires TablesOk(before) && after == before.(members := after.members)
    requires forall m <- after.members :: m in before.members && after.members[m] == before.members[m]
    requires forall o, u | IsOwner(before, o, u) && o in before.orgs :: IsOwner(after, o, u)
    ensures TablesOk(after) && OwnersKept(before, after)
  {
    forall o | Owned(before, o) && o in after.orgs ensures Owned(after, o) {
      var u :| IsOwner(before, o, u);
      assert IsOwner(after, o, u);
    }
    forall o, u, v | IsOwner(after, o, u) && IsOwner(after, o, v) ensures u == v {
      assert IsOwner(before, o, u) && IsOwner(before, o, v);
    }
    forall o <- after.orgs | after.orgs[o].kind == Personal
      ensures after.orgs[o].createdBy.Some? && IsOwner(after, o, after.orgs[o].createdBy.value)
    {
      assert IsOwner(before, o, before.orgs[o].createdBy.value);
    }
    SingleActiveFrom(before, after);
  }

  lemma RemovedOrgs(db: Db, gone: set<nat>)
    requires TablesOk(db)
    ensures TablesOk(WithoutOrgs(db, gone)) && OwnersKept(db, WithoutOrgs(db, gone))
  {
    var t := WithoutOrgs(db, gone);
    forall o | o in t.orgs && Owned(db, o) ensures Owned(t, o) {
      var u :| IsOwner(db, o, u);
      assert IsOwner(t, o, u);
    }
    forall o, u, v | IsOwner(t, o, u) && IsOwner(t, o, v) ensures u == v {
      assert IsOwner(db, o, u) && IsOwner(db, o, v);
    }
    SingleActiveFrom(db, t);
  }

  /** A user with no membership, and no personal organization, can go. */
  lemma RemovedUser(db: Db, user: nat)
    requires TablesOk(db) && user in db.users && OrgsOf(db, user) == {}
    ensures TablesOk(WithoutUser(db, user)) && OwnersKept(db, WithoutUser(db, user))
    ensures WithoutUser(db, user).members == db.members
  {
    var t := WithoutUser(db, user);
    assert t.members == db.members by {
      forall m <- db.members ensures m.1 != user {
        assert m.1 == user ==> m.0 in OrgsOf(db, user);
      }
    }
    forall o | Owned(db, o) ensures Owned(t, o) {
      var u :| IsOwner(db, o, u);
      assert IsOwner(t, o, u);
    }
    forall o, u, v | IsOwner(t, o, u) && IsOwner(t, o, v) ensures u == v {
      assert IsOwner(db, o, u) && IsOwner(db, o, v);
    }
    forall o <- t.orgs | t.orgs[o].kind == Personal
      ensures t.orgs[o].createdBy.Some? && IsOwner(t, o, t.orgs[o].createdBy.value)
    {
      assert IsOwner(db, o, db.orgs[o].createdBy.value);
    }
    SingleActiveFrom(db, t);
  }

  lemma OwnersAre(db: Db, org: nat, owner: nat)
    requires SingleOwner(db) && IsOwner(db, org, owner)
    ensures OwnersOf(db, org) == {owner} && |OwnersOf(db, org)| == 1
  {
    forall u ensures u in OwnersOf(db, org) <==> u == owner {
      assert u in OwnersOf(db, org) <==> IsOwner(db, org, u);
    }
  }

  lemma MemberListed(db: Db, org: nat, user: nat)
    ensures user in MembersOf(db, org) <==> IsMember(db, org, user)
    ensures org in OrgsOf(db, user) <==> IsMember(db, org, user)
  {
  }

  lemma HasOwnerIsOwned(db: Db, org: nat)
    ensures HasOwner(db, org) <==> Owned(db, org)
  {
    if Owned(db, org) {
      var u :| IsOwner(db, org, u);
      assert db.members[(org, u)] == Owner;
    }
    if HasOwner(db, org) {
      var m :| m in db.members && m.0 == org && db.members[m] == Owner;
      assert IsOwner(db, org, m.1);
    }
  }

  // Operations of service.go

  lemma NewOrg(db: Db, user: nat, kind: Kind, id: nat)
    requires TablesOk(db) && AllOwned(db) && user in db.users && id !in db.orgs
    ensures var t := WithMember(db.(orgs := db.orgs[id := Org(kind, Some(user))]), id, user, Owner);
      TablesOk(t) && AllOwned(t)
  {
    var t := WithMember(db.(orgs := db.orgs[id := Org(kind, Some(user))]), id, user, Owner);
    assert IsOwner(t, id, user);
    forall o <- t.orgs ensures Owned(t, o) {
      if o != id {
        var u :| IsOwner(db, o, u);
        assert IsOwner(t, o, u);
      }
    }
    forall o, u, v | IsOwner(t, o, u) && IsOwner(t, o, v) ensures u == v {
      if o != id {
        assert IsOwner(db, o, u) && IsOwner(db, o, v);
      }
    }
    forall o <- t.orgs | t.orgs[o].kind == Personal
      ensures t.orgs[o].createdBy.Some? && IsOwner(t, o, t.orgs[o].createdBy.value)
    {
      assert o != id ==> IsOwner(db, o, db.orgs[o].createdBy.value);
    }
    SingleActiveFrom(db, t);
  }

  lemma CreateOrganizationKept(mode: Mode, db: Db, actor: Option<nat>, id: nat)
    requires Inv(mode, db)
    ensures Inv(mode, CreateOrganization(mode, db, actor, id).db)
  {
    if CreateOrganization(mode, db, actor, id).result.Ok? {
      NewOrg(db, actor.value, Team, id);
    }
  }

  lemma UpdateMemberKept(mode: Mode, db: Db, org: nat, user: nat, actor: nat, role: Role)
    requires Inv(mode, db)
    ensures Inv(mode, UpdateMember(db, org, user, actor, role).db)
  {
    if UpdateMember(db, org, user, actor, role).result.Ok? {
      AddedMember(db, org, user, role);
      ModeKept(mode, db, WithMember(db, org, user, role));
    }
  }

  /** The mode only looks at which organizations, memberships and invitations there are. */
  lemma ModeKept(mode: Mode, before: Db, after: Db)
    requires ModeOk(mode, before)
    requires after.members.Keys <= before.members.Keys && after.orgs.Keys <= before.orgs.Keys
    requires after.invitations.Keys <= before.invitations.Keys
    requires forall o <- after.orgs :: after.orgs[o].kind == before.orgs[o].kind
    requires mode == PersonalMode ==>
        forall m <- after.members :: m.0 in after.orgs && after.orgs[m.0] == before.orgs[m.0]
    ensures ModeOk(mode, after)
  {
    forall o, u | IsMember(after, o, u) ensures IsMember(before, o, u) {
    }
  }

  // Operations of lifecycle.go

  lemma RemoveMemberKept(mode: Mode, db: Db, org: nat, user: nat, actor: nat)
    requires Inv(mode, db)
    ensures Inv(mode, RemoveMember(mode, db, org, user, actor).db)
  {
    if RemoveMember(mode, db, org, user, actor).result.Ok? {
      var t := WithoutMember(db, org, user);
      if IsOwner(db, org, user) {
        OwnersAre(db, org, user);
        assert false;
      }
      RemovedMembers(db, t);
      ModeKept(mode, db, t);
    }
  }

  lemma DeleteOrganizationKept(mode: Mode, db: Db, org: nat, actor: nat)
    requires Inv(mode, db)
    ensures Inv(mode, DeleteOrganization(mode, db, org, actor).db)
  {
    if DeleteOrganization(mode, db, org, actor).result.Ok? {
      RemovedOrgs(db, {org});
      ModeKept(mode, db, WithoutOrgs(db, {org}));
    }
  }

  /** The tables after a transfer from the owner to another member. */
  lemma Transferred(db: Db, org: nat, actor: nat, successor: nat)
    requires TablesOk(db) && AllOwned(db) && org in db.orgs && db.orgs[org].kind != Personal
    requires actor != successor && IsOwner(db, org, actor) && IsMember(db, org, successor)
    ensures var t := WithMember(WithMember(db, org, actor, Admin), org, successor, Owner);
      && TablesOk(t) && AllOwned(t)
      && (forall o, u :: IsOwner(t, o, u) <==> if o == org then u == successor else IsOwner(db, o, u))
      && (forall o, u :: IsMember(t, o, u) == IsMember(db, o, u))
  {
    var t := WithMember(WithMember(db, org, actor, Admin), org, successor, Owner);
    forall o, u ensures IsOwner(t, o, u) <==> if o == org then u == successor else IsOwner(db, o, u) {
      assert o == org && IsOwner(db, o, u) ==> u == actor;
    }
    forall o <- t.orgs ensures Owned(t, o) {
      var u :| IsOwner(db, o, u);
      assert IsOwner(t, o, if o == org then successor else u);
    }
    SingleActiveFrom(db, t);
  }

  lemma TransferKept(mode: Mode, db: Db, org: nat, actor: nat, successor: nat)
    requires Inv(mode, db)
    ensures Inv(mode, TransferOwnership(db, org, actor, successor).db)
  {
    hide AllOwned, ModeOk, SingleOwner, SingleActive, PersonalOwned, InvitationsOk;
    if TransferOwnership(db, org, actor, successor).result.Ok? {
      Transferred(db, org, actor, successor);
      ModeKept(mode, db, TransferOwnership(db, org, actor, successor).db);
    }
  }

  // Operations of invitations.go

  lemma MarkedKept(mode: Mode, before: Db, after: Db, i: nat)
    requires Inv(mode, before) && i in before.invitations && before.invitations[i].Active()
    requires i in after.invitations && after == before.(invitations := before.invitations[i := after.invitations[i]])
    requires !after.invitations[i].Active() && InvitationOk(after.invitations[i])
    requires after.invitations[i].org == before.invitations[i].org
    ensures Inv(mode, after)
  {
    forall o, u
      ensures IsOwner(after, o, u) == IsOwner(before, o, u) && IsMember(after, o, u) == IsMember(before, o, u)
    {
    }
    forall o <- after.orgs ensures Owned(after, o) {
      var u :| IsOwner(before, o, u);
      assert IsOwner(after, o, u);
    }
    SingleActiveFrom(before, after);
  }

  lemma InsertKept(mode: Mode, db: Db, i: nat, invitation: Invitation)
    requires Inv(mode, db) && mode.AllowsInvitations()
    requires invitation.org in db.orgs && InvitationOk(invitation)
    ensures Inv(mode, Insert(db, i, invitation).db)
  {
    var t := Insert(db, i, invitation).db;
    if Insert(db, i, invitation).result.Ok? {
      forall o <- t.orgs ensures Owned(t, o) {
        var u :| IsOwner(db, o, u);
        assert IsOwner(t, o, u);
      }
      forall o, u ensures IsOwner(t, o, u) == IsOwner(db, o, u) && IsMember(t, o, u) == IsMember(db, o, u) {
      }
      forall j, k <- t.invitations
        | ActiveFor(t, j, t.invitations[k].org, t.invitations[k].email) && t.invitations[k].Active()
        ensures j == k
      {
        assert j != i ==> ActiveFor(db, j, t.invitations[k].org, t.invitations[k].email);
        assert k != i ==> ActiveFor(db, k, t.invitations[k].org, t.invitations[k].email);
      }
    }
  }

  lemma CreateInvitationKept(mode: Mode, db: Db, org: nat, actor: Option<nat>, email: Option<string>,
                             role: Option<Role>, now: int, ttl: int, id: nat, existing: Option<nat>)
    requires Inv(mode, db)
    ensures Inv(mode, CreateInvitation(mode, db, org, actor, email, role, now, ttl, id, existing).db)
  {
    if CreateInvitation(mode, db, org, actor, email, role, now, ttl, id, existing).result.Ok? {
      var invitation := NewInvitation(org, email.value, NormalizedRole(role).value, actor, now + ttl);
      if existing.None? || !ActiveFor(db, existing.value, org, email.value) {
        InsertKept(mode, db, id, invitation);
      } else {
        var t := MarkRevoked(db, existing.value, actor, now);
        MarkedKept(mode, db, t, existing.value);
        InsertKept(mode, t, id, invitation);
      }
    }
  }

  lemma ResendInvitationKept(mode: Mode, db: Db, org: nat, i: nat, now: int, ttl: int, id: nat)
    requires Inv(mode, db)
    ensures Inv(mode, ResendInvitation(mode, db, org, i, now, ttl, id).db)
  {
    if ResendInvitation(mode, db, org, i, now, ttl, id).result.Ok? {
      var row := db.invitations[i];
      var t := MarkRevoked(db, i, row.invitedBy, now);
      MarkedKept(mode, db, t, i);
      InsertKept(mode, t, id, NewInvitation(org, row.email, row.role, row.invitedBy, now + ttl));
    }
  }

  lemma RevokeInvitationKept(mode: Mode, db: Db, org: nat, i: nat, revoker: Option<nat>, now: int)
    requires Inv(mode, db)
    ensures Inv(mode, RevokeInvitation(mode, db, org, i, revoker, now).db)
  {
    if RevokeInvitation(mode, db, org, i, revoker, now).result.Ok? {
      MarkedKept(mode, db, MarkRevoked(db, i, revoker, now), i);
    }
  }

  lemma JoinedKept(mode: Mode, db: Db, org: nat, user: nat, role: Role)
    requires Inv(mode, db) && mode.AllowsInvitations() && org in db.orgs && user in db.users && role != Owner
    requires !IsMember(db, org, user) && (mode == SingleMode ==> OrgsOf(db, user) == {})
    ensures Inv(mode, WithMember(db, org, user, role))
  {
    var t := WithMember(db, org, user, role);
    AddedMember(db, org, user, role);
    if mode == SingleMode {
      forall o, p, u | IsMember(t, o, u) && IsMember(t, p, u) ensures o == p {
        assert IsMember(db, o, user) ==> o in OrgsOf(db, user);
        assert IsMember(db, p, user) ==> p in OrgsOf(db, user);
        assert o != org || u != user ==> IsMember(db, o, u);
        assert p != org || u != user ==> IsMember(db, p, u);
      }
    }
  }

  lemma AcceptKept(mode: Mode, db: Db, user: nat, i: nat, now: int)
    requires Inv(mode, db)
    ensures Inv(mode, Accept(mode, db, user, i, now).db)
  {
    if Accept(mode, db, user, i, now).result == Ok(true) {
      var row := db.invitations[i];
      if IsMember(db, row.org, user) {
        MarkedKept(mode, db, MarkAccepted(db, i, user, now), i);
      } else {
        var t := WithMember(db, row.org, user, row.role);
        JoinedKept(mode, db, row.org, user, row.role);
        MarkedKept(mode, t, MarkAccepted(t, i, user, now), i);
      }
    }
  }

  // Signup and deletion

  lemma AddedUser(mode: Mode, db: Db, user: nat, email: string, kind: Kind)
    requires Inv(mode, db) && user !in db.users
    ensures Inv(mode, db.(users := db.users[user := email]))
    ensures OrgsOf(db.(users := db.users[user := email]), user) == {}
    ensures CreatedBy(db.(users := db.users[user := email]), user, kind) == {}
  {
    var t := db.(users := db.users[user := email]);
    forall o, u ensures IsOwner(t, o, u) == IsOwner(db, o, u) && IsMember(t, o, u) == IsMember(db, o, u) {
    }
    forall o <- t.orgs ensures Owned(t, o) {
      var u :| IsOwner(db, o, u);
      assert IsOwner(t, o, u);
    }
    SingleActiveFrom(db, t);
    ModeKept(mode, db, t);
  }

  lemma FirstOrgKept(mode: Mode, db: Db, user: nat, invited: bool, id: nat, found: nat)
    requires Inv(mode, db) && user in db.users && OrgsOf(db, user) == {} && PlanFor(mode, invited).Ok?
    requires CreatedBy(db, user, PlanFor(mode, invited).value.kind) == {}
    ensures Inv(mode, EnsureInitial(mode, db, user, invited, id, found).db)
  {
    hide TablesOk, AllOwned;
    var plan := PlanFor(mode, invited).value;
    if EnsureInitial(mode, db, user, invited, id, found).result == Ok(true) {
      NewOrg(db, user, plan.kind, id);
      FirstOrgMode(mode, db, user, plan.kind, id);
    }
  }

  lemma SignupKept(mode: Mode, db: Db, user: nat, email: string, invitation: Option<nat>, now: int, id: nat, found: nat)
    requires Inv(mode, db)
    ensures Inv(mode, Signup(mode, db, user, email, invitation, now, id, found).db)
  {
    if Signup(mode, db, user, email, invitation, now, id, found).result.Ok? {
      hide Inv, EnsureInitial, Accept, CreatedBy, OrgsOf;
      var added := db.(users := db.users[user := email]);
      AddedUser(mode, db, user, email, PlanFor(mode, invitation.Some?).value.kind);
      FirstOrgKept(mode, added, user, invitation.Some?, id, found);
      if invitation.Some? {
        AcceptKept(mode, EnsureInitial(mode, added, user, true, id, found).db, user, invitation.value, now);
      }
    }
  }

  lemma FirstOrgMode(mode: Mode, db: Db, user: nat, kind: Kind, id: nat)
    requires Inv(mode, db) && id !in db.orgs && OrgsOf(db, user) == {}
    requires mode == PersonalMode ==> kind == Personal
    requires mode == SingleMode ==> kind == Team
    ensures ModeOk(mode, WithMember(db.(orgs := db.orgs[id := Org(kind, Some(user))]), id, user, Owner))
  {
    var t := WithMember(db.(orgs := db.orgs[id := Org(kind, Some(user))]), id, user, Owner);
    if mode == SingleMode {
      forall o, p, u | IsMember(t, o, u) && IsMember(t, p, u) ensures o == p {
        MemberListed(db, o, user);
        MemberListed(db, p, user);
        assert o != id || u != user ==> IsMember(db, o, u);
        assert p != id || u != user ==> IsMember(db, p, u);
      }
    }
  }

  lemma {:induction false} FirstObstacleNone(mode: Mode, db: Db, user: nat, listing: seq<nat>)
    ensures FirstObstacle(mode, db, user, listing).None? <==>
      forall o <- listing | o in db.orgs && IsMember(db, o, user) :: Obstacle(mode, db, o, user).None?
  {
    if listing != [] {
      FirstObstacleNone(mode, db, user, listing[1..]);
      assert forall o :: o in listing <==> o == listing[0] || o in listing[1..];
    }
  }

  lemma CountMembers(db: Db, org: nat, user: nat)
    requires IsMember(db, org, user)
    ensures |MembersOf(db, org)| == 1 <==> MembersOf(db, org) == {user}
    ensures |MembersOf(db, org)| > 1 <==> exists other :: other != user && IsMember(db, org, other)
  {
    var members := MembersOf(db, org);
    MemberListed(db, org, user);
    if members == {user} {
      forall other | other != user ensures !IsMember(db, org, other) {
        MemberListed(db, org, other);
      }
    } else {
      assert members - {user} != {} by {
        assert members == {user} + (members - {user});
      }
      var other :| other in members - {user};
      MemberListed(db, org, other);
      assert {user, other} <= members && |{user, other}| == 2;
      SubsetSize({user, other}, members);
    }
  }

  lemma {:induction false} SubsetSize(small: set<nat>, large: set<nat>)
    requires small <= large
    ensures |small| <= |large|
  {
    if small != {} {
      var x :| x in small;
      SubsetSize(small - {x}, large - {x});
    }
  }

  /** The user owns a team that others belong to. */
  ghost predicate OwnsSharedTeam(db: Db, user: nat) {
    exists o, other :: o in db.orgs && db.orgs[o].kind == Team && IsOwner(db, o, user) && other != user &&
        IsMember(db, o, other)
  }

  lemma ObstacleIs(mode: Mode, db: Db, org: nat, user: nat)
    requires Inv(mode, db) && org in db.orgs && IsMember(db, org, user)
    ensures Obstacle(mode, db, org, user) ==
      if db.orgs[org].kind == Team && IsOwner(db, org, user) &&
          (exists other :: other != user && IsMember(db, org, other))
      then Some(LastOwner) else None
    ensures IsOwner(db, org, user) && Obstacle(mode, db, org, user).None? ==> Doomed(db, org, user)
  {
    CountMembers(db, org, user);
    var owner :| IsOwner(db, org, owner);
    OwnersAre(db, org, owner);
    MemberListed(db, org, owner);
    if db.orgs[org].kind == Personal {
      var creator := db.orgs[org].createdBy.value;
      assert IsOwner(db, org, creator) && IsMember(db, org, creator);
    }
  }

  lemma {:induction false} ObstacleError(mode: Mode, db: Db, user: nat, listing: seq<nat>)
    requires Inv(mode, db)
    ensures FirstObstacle(mode, db, user, listing).Some? ==> FirstObstacle(mode, db, user, listing) == Some(LastOwner)
  {
    hide Inv, Obstacle;
    if listing != [] {
      if listing[0] in db.orgs && IsMember(db, listing[0], user) {
        ObstacleIs(mode, db, listing[0], user);
      }
      ObstacleError(mode, db, user, listing[1..]);
    }
  }

  /** A user can be deleted exactly when no team with other members would lose its owner. */
  lemma DeletableIff(mode: Mode, db: Db, user: nat, listing: seq<nat>)
    requires Inv(mode, db) && Covers(db, user, listing)
    ensures FirstObstacle(mode, db, user, listing).None? <==> !OwnsSharedTeam(db, user)
    ensures FirstObstacle(mode, db, user, listing).None? <==> Deletable(mode, db, user)
  {
    hide Inv, Obstacle;
    FirstObstacleNone(mode, db, user, listing);
    forall o <- db.orgs | IsMember(db, o, user)
      ensures Obstacle(mode, db, o, user).Some? <==>
        db.orgs[o].kind == Team && IsOwner(db, o, user) && exists other :: other != user && IsMember(db, o, other)
    {
      ObstacleIs(mode, db, o, user);
    }
    if OwnsSharedTeam(db, user) {
      var o, other :| o in db.orgs && db.orgs[o].kind == Team && IsOwner(db, o, user) && other != user &&
          IsMember(db, o, other);
      assert IsMember(db, o, user) && Obstacle(mode, db, o, user).Some?;
    }
  }

  lemma PreparedKept(mode: Mode, db: Db, user: nat)
    requires Inv(mode, db) && Deletable(mode, db, user)
    ensures TablesOk(Prepared(db, user)) && OwnersKept(db, Prepared(db, user)) && OrgsOf(Prepared(db, user), user) == {}
    ensures forall o | o in db.orgs && o !in DoomedOrgs(db, user) :: !IsOwner(db, o, user)
  {
    var gone := DoomedOrgs(db, user);
    var rest := WithoutOrgs(db, gone);
    RemovedOrgs(db, gone);
    forall o | o in db.orgs && o !in gone ensures !IsOwner(db, o, user) {
      if IsOwner(db, o, user) {
        assert IsMember(db, o, user);
        ObstacleIs(mode, db, o, user);
        assert false;
      }
    }
    forall o, u | IsOwner(rest, o, u) ensures IsOwner(Prepared(db, user), o, u) {
      assert IsOwner(db, o, u) && o in rest.orgs;
    }
    RemovedMembers(rest, Prepared(db, user));
    forall o ensures o !in OrgsOf(Prepared(db, user), user) {
      MemberListed(Prepared(db, user), o, user);
    }
  }

  lemma DeleteUserKept(mode: Mode, db: Db, user: nat, listing: seq<nat>)
    requires Inv(mode, db) && Covers(db, user, listing)
    ensures Inv(mode, DeleteUser(mode, db, user, listing).db)
  {
    if DeleteUser(mode, db, user, listing).result.Ok? {
      var prepared := Prepared(db, user);
      DeletableIff(mode, db, user, listing);
      PreparedKept(mode, db, user);
      RemovedUser(prepared, user);
      DeletedMode(mode, db, user);
      var t := WithoutUser(prepared, user);
      hide TablesOk, ModeOk;
      forall o <- t.orgs ensures Owned(t, o) {
        assert Owned(db, o) && o in prepared.orgs && Owned(prepared, o);
      }
    }
  }

  lemma DeletedMode(mode: Mode, db: Db, user: nat)
    requires Inv(mode, db) && user in db.users && OrgsOf(Prepared(db, user), user) == {}
    ensures ModeOk(mode, WithoutUser(Prepared(db, user), user))
  {
    var t := WithoutUser(Prepared(db, user), user);
    forall o, u | IsMember(t, o, u) ensures IsMember(db, o, u) && u != user {
    }
  }

  /** The user, the user's own personal organizations and the teams where the user was alone are
      gone; every other organization loses the user's membership and nothing else, and keeps its
      owner. */
  ghost predicate CleanlyDeleted(before: Db, after: Db, user: nat) {
    && after.users == before.users - {user}
    && (forall o :: o in after.orgs <==> o in before.orgs && !GoesWith(before, o, user))
    && (forall o, u | o in after.orgs :: IsMember(after, o, u) <==> IsMember(before, o, u) && u != user)
    && (forall o, u | o in after.orgs :: IsOwner(after, o, u) <==> IsOwner(before, o, u))
  }

  predicate GoesWith(db: Db, org: nat, user: nat)
    requires org in db.orgs
  {
    db.orgs[org] == Org(Personal, Some(user)) || (db.orgs[org].kind == Team && MembersOf(db, org) == {user})
  }

  lemma DeletedRows(db: Db, user: nat)
    requires user in db.users
    ensures var t := WithoutUser(Prepared(db, user), user);
      && t.users == db.users - {user}
      && (forall o :: o in t.orgs <==> o in db.orgs && o !in DoomedOrgs(db, user))
      && (forall o, u :: IsMember(t, o, u) <==> IsMember(db, o, u) && o !in DoomedOrgs(db, user) && u != user)
      && (forall o, u :: IsOwner(t, o, u) <==> IsOwner(db, o, u) && o !in DoomedOrgs(db, user) && u != user)
  {
    hide Doomed;
  }

  lemma GoneOrgs(mode: Mode, db: Db, user: nat)
    requires Inv(mode, db)
    ensures forall o | o in db.orgs :: o in DoomedOrgs(db, user) <==> GoesWith(db, o, user)
  {
    hide GoesWith, Doomed;
    forall o | o in db.orgs ensures o in DoomedOrgs(db, user) <==> GoesWith(db, o, user) {
      DoomedIs(db, o, user);
    }
  }

  lemma CleanFrom(before: Db, after: Db, user: nat, gone: set<nat>)
    requires after.users == before.users - {user}
    requires forall o | o in before.orgs :: o in gone <==> GoesWith(before, o, user)
    requires forall o :: o in after.orgs <==> o in before.orgs && o !in gone
    requires forall o, u :: IsMember(after, o, u) <==> IsMember(before, o, u) && o !in gone && u != user
    requires forall o, u :: IsOwner(after, o, u) <==> IsOwner(before, o, u) && o !in gone && u != user
    requires forall o | o in before.orgs && o !in gone :: !IsOwner(before, o, user)
    ensures CleanlyDeleted(before, after, user)
  {
    hide IsMember, IsOwner, GoesWith;
  }

  lemma CleanDeletion(mode: Mode, db: Db, user: nat)
    requires Inv(mode, db) && user in db.users && Deletable(mode, db, user)
    ensures CleanlyDeleted(db, WithoutUser(Prepared(db, user), user), user)
  {
    var after := WithoutUser(Prepared(db, user), user);
    hide Inv, Deletable, CleanlyDeleted, WithoutUser, Prepared, DoomedOrgs, GoesWith, IsMember, IsOwner;
    GoneOrgs(mode, db, user);
    PreparedKept(mode, db, user);
    DeletedRows(db, user);
    CleanFrom(db, after, user, DoomedOrgs(db, user));
  }

  /** Deleting a user, on any reachable tables: it is refused, with the tables untouched, exactly
      when the user owns a team others belong to. */
  lemma UserDeletion(mode: Mode, db: Db, user: nat, listing: seq<nat>)
    requires Inv(mode, db) && user in db.users && Covers(db, user, listing)
    ensures DeleteUser(mode, db, user, listing).result.Err? <==> OwnsSharedTeam(db, user)
    ensures DeleteUser(mode, db, user, listing).result.Err? ==>
      DeleteUser(mode, db, user, listing) == Outcome(db, Err(LastOwner))
    ensures DeleteUser(mode, db, user, listing).result.Ok? ==>
      CleanlyDeleted(db, DeleteUser(mode, db, user, listing).db, user)
  {
    DeletableIff(mode, db, user, listing);
    ObstacleError(mode, db, user, listing);
    hide Inv, OwnsSharedTeam, CleanlyDeleted, Deletable;
    if DeleteUser(mode, db, user, listing).result.Ok? {
      CleanDeletion(mode, db, user);
    }
  }

  lemma DoomedIs(db: Db, org: nat, user: nat)
    requires TablesOk(db) && org in db.orgs
    ensures Doomed(db, org, user) <==> GoesWith(db, org, user)
  {
    MemberListed(db, org, user);
    if IsMember(db, org, user) {
      CountMembers(db, org, user);
    }
    if db.orgs[org] == Org(Personal, Some(user)) {
      assert IsOwner(db, org, user);
    }
  }

  // Runs

  /** Invitation ids ever used, and the acceptances that took effect, are recorded beside the tables. */
  datatype Sys = Sys(db: Db, used: set<nat>, acceptances: seq<(nat, nat)>)

  datatype Action =
    | SignupAction(user: nat, email: string, invitation: Option<nat>, now: int, id: nat)
    | CreateOrganizationAction(creator: Option<nat>, id: nat)
    | UpdateMemberAction(org: nat, user: nat, actor: nat, role: Role)
    | RemoveMemberAction(org: nat, user: nat, actor: nat)
    | DeleteOrganizationAction(org: nat, actor: nat)
    | TransferAction(org: nat, actor: nat, successor: nat)
    | DeleteUserAction(user: nat, listing: seq<nat>)
    | InviteAction(org: nat, inviter: Option<nat>, address: Option<string>, invitedAs: Option<Role>,
                   now: int, ttl: int, id: nat, existing: Option<nat>)
    | ResendAction(org: nat, i: nat, now: int, ttl: int, id: nat)
    | RevokeAction(org: nat, i: nat, revoker: Option<nat>, now: int)
    | AcceptAction(user: nat, i: nat, now: int)

  /** Row ids are never reused, and a deletion's listing misses nothing. */
  predicate Possible(s: Sys, action: Action) {
    match action
    case InviteAction(_, _, _, _, _, _, id, _) => id !in s.used
    case ResendAction(_, _, _, _, id) => id !in s.used
    case DeleteUserAction(user, listing) => Covers(s.db, user, listing)
    case _ => true
  }

  function Effect(mode: Mode, db: Db, action: Action): Outcome {
    match action
    case SignupAction(user, email, invitation, now, id) => Signup(mode, db, user, email, invitation, now, id, 0)
    case CreateOrganizationAction(actor, id) => CreateOrganization(mode, db, actor, id)
    case UpdateMemberAction(org, user, actor, role) => UpdateMember(db, org, user, actor, role)
    case RemoveMemberAction(org, user, actor) => RemoveMember(mode, db, org, user, actor)
    case DeleteOrganizationAction(org, actor) => DeleteOrganization(mode, db, org, actor)
    case TransferAction(org, actor, successor) => TransferOwnership(db, org, actor, successor)
    case DeleteUserAction(user, listing) => DeleteUser(mode, db, user, listing)
    case InviteAction(org, actor, email, role, now, ttl, id, existing) =>
      CreateInvitation(mode, db, org, actor, email, role, now, ttl, id, existing)
    case ResendAction(org, i, now, ttl, id) => ResendInvitation(mode, db, org, i, now, ttl, id)
    case RevokeAction(org, i, revoker, now) => RevokeInvitation(mode, db, org, i, revoker, now)
    case AcceptAction(user, i, now) => Accept(mode, db, user, i, now)
  }

  /** The invitation and user of an acceptance that took effect. */
  function Acceptance(mode: Mode, outcome: Outcome, action: Action): seq<(nat, nat)> {
    match action
    case SignupAction(user, _, Some(i), _, _) => if outcome.result == Ok(true) then [(i, user)] else []
    case AcceptAction(user, i, _) => if outcome.result == Ok(true) then [(i, user)] else []
    case _ => []
  }

  function Apply(mode: Mode, s: Sys, action: Action): Sys {
    if !Possible(s, action) then s
    else
      var outcome := Effect(mode, s.db, action);
      Sys(outcome.db, s.used + outcome.db.invitations.Keys, s.acceptances + Acceptance(mode, outcome, action))
  }

  function Run(mode: Mode, s: Sys, actions: seq<Action>): Sys
    decreases |actions|
  {
    if actions == [] then s else Run(mode, Apply(mode, s, actions[0]), actions[1..])
  }

  lemma EffectKept(mode: Mode, db: Db, action: Action)
    requires Inv(mode, db)
    requires action.DeleteUserAction? ==> Covers(db, action.user, action.listing)
    ensures Inv(mode, Effect(mode, db, action).db)
  {
    hide Inv, Signup, CreateOrganization, UpdateMember, RemoveMember, DeleteOrganization, TransferOwnership, DeleteUser;
    hide CreateInvitation, ResendInvitation, RevokeInvitation, Accept;
    match action
    case SignupAction(user, email, invitation, now, id) => SignupKept(mode, db, user, email, invitation, now, id, 0);
    case CreateOrganizationAction(actor, id) => CreateOrganizationKept(mode, db, actor, id);
    case UpdateMemberAction(org, user, actor, role) => UpdateMemberKept(mode, db, org, user, actor, role);
    case RemoveMemberAction(org, user, actor) => RemoveMemberKept(mode, db, org, user, actor);
    case DeleteOrganizationAction(org, actor) => DeleteOrganizationKept(mode, db, org, actor);
    case TransferAction(org, actor, successor) => TransferKept(mode, db, org, actor, successor);
    case DeleteUserAction(user, listing) => DeleteUserKept(mode, db, user, listing);
    case InviteAction(org, actor, email, role, now, ttl, id, existing) =>
      CreateInvitationKept(mode, db, org, actor, email, role, now, ttl, id, existing);
    case ResendAction(org, i, now, ttl, id) => ResendInvitationKept(mode, db, org, i, now, ttl, id);
    case RevokeAction(org, i, revoker, now) => RevokeInvitationKept(mode, db, org, i, revoker, now);
    case AcceptAction(user, i, now) => AcceptKept(mode, db, user, i, now);
  }

  // Acceptances

  /** Acceptances recorded in the table stay as they are until their row goes, and new rows are new. */
  ghost predicate Evolves(before: Db, after: Db, used: set<nat>) {
    forall i <- after.invitations ::
      if i !in before.invitations then i !in used
      else before.invitations[i].acceptedAt.Some? ==>
        after.invitations[i].acceptedAt == before.invitations[i].acceptedAt &&
        after.invitations[i].acceptedBy == before.invitations[i].acceptedBy
  }

  lemma AcceptEvolves(mode: Mode, db: Db, user: nat, i: nat, now: int, used: set<nat>)
    ensures var outcome := Accept(mode, db, user, i, now);
      && Evolves(db, outcome.db, used)
      && (outcome.result == Ok(true) ==>
            && i in db.invitations && db.invitations[i].Active()
            && i in outcome.db.invitations && outcome.db.invitations[i].acceptedAt.Some?
            && outcome.db.invitations[i].acceptedBy == Some(user))
  {
  }

  lemma SignupEvolves(mode: Mode, db: Db, user: nat, email: string, invitation: Option<nat>, now: int, id: nat,
                      found: nat, used: set<nat>)
    ensures var outcome := Signup(mode, db, user, email, invitation, now, id, found);
      && Evolves(db, outcome.db, used)
      && (outcome.result == Ok(true) && invitation.Some? ==>
            var i := invitation.value;
            && i in db.invitations && db.invitations[i].Active()
            && i in outcome.db.invitations && outcome.db.invitations[i].acceptedAt.Some?
            && outcome.db.invitations[i].acceptedBy == Some(user))
  {
    if user !in db.users && invitation.Some? {
      var ensured := EnsureInitial(mode, db.(users := db.users[user := email]), user, true, id, found);
      assert ensured.db.invitations == db.invitations;
      AcceptEvolves(mode, ensured.db, user, invitation.value, now, used);
    }
  }

  lemma InviteEvolves(mode: Mode, db: Db, org: nat, actor: Option<nat>, email: Option<string>, role: Option<Role>,
                      now: int, ttl: int, id: nat, existing: Option<nat>, used: set<nat>)
    requires id !in used
    ensures Evolves(db, CreateInvitation(mode, db, org, actor, email, role, now, ttl, id, existing).db, used)
  {
  }

  lemma ResendEvolves(mode: Mode, db: Db, org: nat, i: nat, now: int, ttl: int, id: nat, used: set<nat>)
    requires id !in used
    ensures Evolves(db, ResendInvitation(mode, db, org, i, now, ttl, id).db, used)
  {
  }

  lemma RevokeEvolves(mode: Mode, db: Db, org: nat, i: nat, revoker: Option<nat>, now: int, used: set<nat>)
    ensures Evolves(db, RevokeInvitation(mode, db, org, i, revoker, now).db, used)
  {
  }

  lemma EffectEvolves(mode: Mode, s: Sys, action: Action)
    requires Possible(s, action)
    ensures var outcome := Effect(mode, s.db, action);
      && Evolves(s.db, outcome.db, s.used)
      && (Acceptance(mode, outcome, action) != [] ==>
            var (i, user) := Acceptance(mode, outcome, action)[0];
            && |Acceptance(mode, outcome, action)| == 1
            && i in s.db.invitations && s.db.invitations[i].Active()
            && i in outcome.db.invitations && outcome.db.invitations[i].acceptedAt.Some?
            && outcome.db.invitations[i].acceptedBy == Some(user))
  {
    hide Signup, Accept, CreateInvitation, ResendInvitation, RevokeInvitation;
    match action
    case SignupAction(user, email, invitation, now, id) =>
      SignupEvolves(mode, s.db, user, email, invitation, now, id, 0, s.used);
    case AcceptAction(user, i, now) => AcceptEvolves(mode, s.db, user, i, now, s.used);
    case InviteAction(org, inviter, address, invitedAs, now, ttl, id, existing) =>
      InviteEvolves(mode, s.db, org, inviter, address, invitedAs, now, ttl, id, existing, s.used);
    case ResendAction(org, i, now, ttl, id) => ResendEvolves(mode, s.db, org, i, now, ttl, id, s.used);
    case RevokeAction(org, i, revoker, now) => RevokeEvolves(mode, s.db, org, i, revoker, now, s.used);
    case _ =>
  }

  /** Recorded acceptances are of distinct invitations, and agree with the rows still there. */
  ghost predicate LogOk(s: Sys) {
    && s.db.invitations.Keys <= s.used
    && (forall k | 0 <= k < |s.acceptances| :: s.acceptances[k].0 in s.used)
    && (forall k | 0 <= k < |s.acceptances| && s.acceptances[k].0 in s.db.invitations ::
          s.db.invitations[s.acceptances[k].0].acceptedAt.Some? &&
          s.db.invitations[s.acceptances[k].0].acceptedBy == Some(s.acceptances[k].1))
    && (forall j, k | 0 <= j < k < |s.acceptances| :: s.acceptances[j].0 != s.acceptances[k].0)
  }

  lemma LogKept(mode: Mode, s: Sys, action: Action)
    requires LogOk(s)
    ensures LogOk(Apply(mode, s, action))
  {
    if Possible(s, action) {
      EffectEvolves(mode, s, action);
      hide Effect, Acceptance, Possible;
    }
  }

  ghost predicate RunInv(mode: Mode, s: Sys) {
    Inv(mode, s.db) && LogOk(s)
  }

  lemma {:induction false} RunKept(mode: Mode, s: Sys, actions: seq<Action>)
    requires RunInv(mode, s)
    ensures RunInv(mode, Run(mode, s, actions))
    decreases |actions|
  {
    if actions != [] {
      hide Inv, LogOk, Effect;
      var t := Apply(mode, s, actions[0]);
      LogKept(mode, s, actions[0]);
      if Possible(s, actions[0]) {
        EffectKept(mode, s.db, actions[0]);
      }
      RunKept(mode, t, actions[1..]);
    }
  }

  function Empty(): Sys {
    Sys(Db(map[], map[], map[], map[]), {}, [])
  }

  lemma Started(mode: Mode, actions: seq<Action>)
    ensures RunInv(mode, Run(mode, Empty(), actions))
  {
    RunKept(mode, Empty(), actions);
  }

  /** Over every run of every operation, each organization has exactly one owner, who is a member
      and an existing user; a personal one is owned by its creator. */
  lemma OwnershipSurvives(mode: Mode, actions: seq<Action>, org: nat)
    ensures var db := Run(mode, Empty(), actions).db;
      org in db.orgs ==>
        && (exists owner :: owner in db.users && OwnersOf(db, org) == {owner} && owner in MembersOf(db, org) &&
                            (db.orgs[org].kind == Personal ==> db.orgs[org].createdBy == Some(owner)))
  {
    Started(mode, actions);
    var db := Run(mode, Empty(), actions).db;
    if org in db.orgs {
      var owner :| IsOwner(db, org, owner);
      OwnersAre(db, org, owner);
      MemberListed(db, org, owner);
      assert IsMember(db, org, owner);
    }
  }

  /** Over every run, an organization has at most one pending invitation per address, and no
      invitation takes effect twice. */
  lemma InvitationsOnce(mode: Mode, actions: seq<Action>)
    ensures var s := Run(mode, Empty(), actions);
      && (forall i, j, org, email | ActiveFor(s.db, i, org, email) && ActiveFor(s.db, j, org, email) :: i == j)
      && (forall j, k | 0 <= j < k < |s.acceptances| :: s.acceptances[j].0 != s.acceptances[k].0)
  {
    Started(mode, actions);
  }

  /** Over every run in single mode, nobody belongs to two organizations. */
  lemma SingleModeSingleMembership(actions: seq<Action>, user: nat)
    ensures |OrgsOf(Run(SingleMode, Empty(), actions).db, user)| <= 1
  {
    Started(SingleMode, actions);
    var db := Run(SingleMode, Empty(), actions).db;
    if OrgsOf(db, user) != {} {
      var o :| o in OrgsOf(db, user);
      forall p ensures p in OrgsOf(db, user) <==> p == o {
        MemberListed(db, o, user);
        MemberListed(db, p, user);
      }
      assert OrgsOf(db, user) == {o};
    }
  }

  /** Repeating an acceptance changes nothing while its user is a member. */
  lemma AcceptTwice(mode: Mode, db: Db, user: nat, i: nat, now: int, later: int)
    requires Accept(mode, db, user, i, now).result.Ok?
    ensures var accepted := Accept(mode, db, user, i, now).db;
      Accept(mode, accepted, user, i, later) == Outcome(accepted, Ok(false))
  {
  }

  /** For an existing user in single mode, ensuring the initial organization keeps to one
      organization exactly when the user belongs to none but teams the user created. */
  lemma EnsureInitialSingle(db: Db, user: nat, id: nat, found: nat)
    requires Inv(SingleMode, db) && EnsureInitial(SingleMode, db, user, false, id, found).result.Ok?
    ensures Inv(SingleMode, EnsureInitial(SingleMode, db, user, false, id, found).db) <==>
      OrgsOf(db, user) <= CreatedBy(db, user, Team)
  {
    var t := EnsureInitial(SingleMode, db, user, false, id, found).db;
    if CreatedBy(db, user, Team) == {} {
      if OrgsOf(db, user) == {} {
        FirstOrgKept(SingleMode, db, user, false, id, found);
      } else {
        var o :| o in OrgsOf(db, user);
        MemberListed(db, o, user);
        assert IsMember(t, o, user) && IsMember(t, id, user) && o != id;
      }
    } else if IsMember(db, found, user) {
      forall o | o in OrgsOf(db, user) ensures o in CreatedBy(db, user, Team) {
        MemberListed(db, o, user);
      }
    } else {
      HasOwnerIsOwned(db, found);
      assert false;
    }
  }
}
