/** The organization service's methods over the tables, statement by statement. Each runs in one
    transaction: writes go to a copy of the tables that only a successful end commits, except in
    the deletion of a user, which works on its caller's transaction. */
module OrganizationService {
  import opened Wrappers
  import opened Organizations
  import opened OrganizationRuns
  import opened OrganizationEffects

  /** An organization locked for a user's deletion, and its membership rows. */
  datatype LockedOrg = LockedOrg(id: nat, row: Org, role: Role, memberships: seq<(nat, Role)>)

  /** The membership rows of an organization, each once. */
  ghost predicate Lists(db: Db, org: nat, rows: seq<(nat, Role)>) {
    && (forall i, j | 0 <= i < j < |rows| :: rows[i].0 != rows[j].0)
    && (forall i | 0 <= i < |rows| :: (org, rows[i].0) in db.members && db.members[(org, rows[i].0)] == rows[i].1)
    && (forall u | (org, u) in db.members :: (u, db.members[(org, u)]) in rows)
  }

  ghost function Users(rows: seq<(nat, Role)>): set<nat> {
    set i | 0 <= i < |rows| :: rows[i].0
  }

  ghost function Owners(rows: seq<(nat, Role)>): set<nat> {
    set i | 0 <= i < |rows| && rows[i].1 == Owner :: rows[i].0
  }

  lemma {:induction false} DistinctSize(rows: seq<(nat, Role)>)
    requires forall i, j | 0 <= i < j < |rows| :: rows[i].0 != rows[j].0
    ensures |Users(rows)| == |rows|
  {
    if rows != [] {
      var n := |rows| - 1;
      DistinctSize(rows[..n]);
      assert Users(rows) == Users(rows[..n]) + {rows[n].0};
      assert rows[n].0 !in Users(rows[..n]);
    }
  }

  lemma ListedSize(db: Db, org: nat, rows: seq<(nat, Role)>)
    requires Lists(db, org, rows)
    ensures |rows| == |MembersOf(db, org)| && Owners(rows) == OwnersOf(db, org)
  {
    DistinctSize(rows);
    forall u ensures u in Users(rows) <==> u in MembersOf(db, org) {
      if (org, u) in db.members {
        assert (u, db.members[(org, u)]) in rows;
      }
    }
    assert Users(rows) == MembersOf(db, org);
    forall u ensures u in Owners(rows) <==> u in OwnersOf(db, org) {
      if (org, u) in db.members {
        assert (u, db.members[(org, u)]) in rows;
      }
    }
  }

  /** ListOrganizationMembershipsByOrganizationID, in some order. */
  method ListMembers(db: Db, org: nat) returns (rows: seq<(nat, Role)>)
    ensures Lists(db, org, rows)
  {
    rows := [];
    var rest := MembersOf(db, org);
    while rest != {}
      invariant rest <= MembersOf(db, org)
      invariant forall i, j | 0 <= i < j < |rows| :: rows[i].0 != rows[j].0
      invariant forall i | 0 <= i < |rows| ::
        rows[i].0 !in rest && (org, rows[i].0) in db.members && db.members[(org, rows[i].0)] == rows[i].1
      invariant forall u | (org, u) in db.members :: u in rest || (u, db.members[(org, u)]) in rows
      decreases rest
    {
      var u :| u in rest;
      var row := (u, db.members[(org, u)]);
      rest := rest - {u};
      rows := rows + [row];
      assert rows[|rows| - 1] == row;
    }
  }

  /** countOrganizationOwners. */
  method CountOwners(rows: seq<(nat, Role)>) returns (owners: nat)
    requires forall i, j | 0 <= i < j < |rows| :: rows[i].0 != rows[j].0
    ensures owners == |Owners(rows)|
  {
    owners := 0;
    for n := 0 to |rows|
      invariant owners == |Owners(rows[..n])|
    {
      assert rows[..n + 1][..n] == rows[..n];
      if rows[n].1 == Owner {
        assert Owners(rows[..n + 1]) == Owners(rows[..n]) + {rows[n].0};
        owners := owners + 1;
      } else {
        assert Owners(rows[..n + 1]) == Owners(rows[..n]);
      }
    }
    assert rows[..|rows|] == rows;
  }

  /** The tables after the apply loop of a user's deletion has handled the organizations in `done`. */
  function PartlyPrepared(db: Db, user: nat, done: set<nat>): Db {
    var gone := DoomedOrgs(db, user) * done;
    Db(db.users,
       db.orgs - gone,
       map m <- db.members | m.0 !in gone && !(m.0 in done && m.1 == user) :: db.members[m],
       map i <- db.invitations | db.invitations[i].org !in gone :: db.invitations[i])
  }

  lemma PreparedStart(db: Db, user: nat)
    ensures PartlyPrepared(db, user, {}) == db
  {
    assert db.orgs - {} == db.orgs;
  }

  lemma PreparedNext(db: Db, user: nat, done: set<nat>, org: nat)
    requires org !in done && org in db.orgs && IsMember(db, org, user)
    ensures PartlyPrepared(db, user, done + {org}) ==
      if Doomed(db, org, user) then WithoutOrgs(PartlyPrepared(db, user, done), {org})
      else WithoutMember(PartlyPrepared(db, user, done), org, user)
  {
    hide Doomed;
    var before, after := PartlyPrepared(db, user, done), PartlyPrepared(db, user, done + {org});
    var gone := DoomedOrgs(db, user) * done;
    if Doomed(db, org, user) {
      assert DoomedOrgs(db, user) * (done + {org}) == gone + {org};
      assert after.members == WithoutOrgs(before, {org}).members;
    } else {
      assert DoomedOrgs(db, user) * (done + {org}) == gone;
      assert after.members == WithoutMember(before, org, user).members;
    }
  }

  lemma PreparedEnd(db: Db, user: nat, done: set<nat>)
    requires forall m <- db.members :: m.0 in db.orgs
    requires forall o | o in db.orgs && IsMember(db, o, user) :: o in done
    ensures PartlyPrepared(db, user, done) == Prepared(db, user)
  {
    assert DoomedOrgs(db, user) * done == DoomedOrgs(db, user);
    assert PartlyPrepared(db, user, done).members == Prepared(db, user).members;
  }

  function LockedIds(db: Db, user: nat, listing: seq<nat>): seq<nat> {
    if listing == [] then []
    else
      var last := listing[|listing| - 1];
      var rest := LockedIds(db, user, listing[..|listing| - 1]);
      if last in db.orgs && IsMember(db, last, user) then rest + [last] else rest
  }

  lemma {:induction false} LockedIdsAre(db: Db, user: nat, listing: seq<nat>)
    requires forall i, j | 0 <= i < j < |listing| :: listing[i] != listing[j]
    ensures var ids := LockedIds(db, user, listing);
      && (forall o :: o in ids <==> o in listing && o in db.orgs && IsMember(db, o, user))
      && (forall i, j | 0 <= i < j < |ids| :: ids[i] != ids[j])
  {
    if listing != [] {
      LockedIdsAre(db, user, listing[..|listing| - 1]);
      assert listing == listing[..|listing| - 1] + [listing[|listing| - 1]];
    }
  }

  lemma {:induction false} ObstacleSplit(mode: Mode, db: Db, user: nat, front: seq<nat>, last: nat)
    ensures FirstObstacle(mode, db, user, front + [last]) ==
      if FirstObstacle(mode, db, user, front).Some? then FirstObstacle(mode, db, user, front)
      else FirstObstacle(mode, db, user, [last])
  {
    if front != [] {
      assert (front + [last])[1..] == front[1..] + [last];
      ObstacleSplit(mode, db, user, front[1..], last);
    } else {
      assert front + [last] == [last];
    }
  }

  lemma {:induction false} LockedObstacle(mode: Mode, db: Db, user: nat, listing: seq<nat>)
    ensures FirstObstacle(mode, db, user, LockedIds(db, user, listing)) == FirstObstacle(mode, db, user, listing)
  {
    if listing != [] {
      var front, last := listing[..|listing| - 1], listing[|listing| - 1];
      assert listing == front + [last];
      LockedObstacle(mode, db, user, front);
      ObstacleSplit(mode, db, user, front, last);
      ObstacleSplit(mode, db, user, LockedIds(db, user, front), last);
    }
  }

  ghost function FirstIds(ids: seq<nat>, n: nat): set<nat>
    requires n <= |ids|
  {
    set i | 0 <= i < n :: ids[i]
  }

  lemma FirstNext(ids: seq<nat>, n: nat)
    requires n < |ids| && forall i, j | 0 <= i < j < |ids| :: ids[i] != ids[j]
    ensures FirstIds(ids, n + 1) == FirstIds(ids, n) + {ids[n]} && ids[n] !in FirstIds(ids, n)
  {
  }

  ghost predicate LockedOk(db: Db, user: nat, item: LockedOrg) {
    && item.id in db.orgs && item.row == db.orgs[item.id]
    && IsMember(db, item.id, user) && item.role == db.members[(item.id, user)]
    && Lists(db, item.id, item.memberships)
  }

  class OrganizationService {
    const mode: Mode
    var db: Db

    constructor (m: Mode, initial: Db)
      ensures mode == m && db == initial
    {
      mode := m;
      db := initial;
    }

    method CreateOrganization(actor: Option<nat>, newId: nat) returns (result: Result<bool, Error>)
      modifies this
      ensures Outcome(db, result) == Organizations.CreateOrganization(mode, old(db), actor, newId)
      ensures result.Err? ==> db == old(db)
      ensures Inv(mode, old(db)) ==> Inv(mode, db)
      ensures Inv(mode, old(db)) ==> (result.Ok? <==> MayCreateTeam(mode, old(db), actor, newId))
      ensures Inv(mode, old(db)) && result.Ok? ==> Opened(old(db), db, Team, actor.value, newId)
    {
      if Inv(mode, db) {
        CreateOrganizationKept(mode, db, actor, newId);
        CreateOrganizationIs(mode, db, actor, newId);
      }
      hide Inv, Opened, MayCreateTeam;
      if !mode.AllowsUserCreatedTeams() {
        return Err(OperationForbidden);
      }
      if actor.None? || actor.value !in db.users {
        return Err(UserNotFound);
      }
      var tx := db;
      if newId in tx.orgs {
        return Err(ConstraintViolation);
      }
      tx := tx.(orgs := tx.orgs[newId := Org(Team, actor)]);
      tx := tx.(members := tx.members[(newId, actor.value) := Owner]);
      db := tx;
      return Ok(true);
    }

    /** EnsureOrganizationForUserWithCreated inside EnsureInitialOrganization: for personal
        organizations an insert that yields to the unique index comes first. */
    method EnsureInitialOrganization(user: nat, invited: bool, newId: nat, found: nat)
      returns (result: Result<bool, Error>)
      requires forall m <- db.members :: m.0 in db.orgs
      modifies this
      ensures Outcome(db, result) == EnsureInitial(mode, old(db), user, invited, newId, found)
      ensures result.Err? ==> db == old(db)
      ensures var kind := if mode == SingleMode then Team else Personal;
        Inv(mode, old(db)) && newId !in old(db).orgs && FindsCreated(old(db), user, kind, found) ==>
          && (result.Ok? <==> MayEnsure(mode, old(db), user, invited, found))
          && (if result == Ok(true) then Opened(old(db), db, kind, user, newId) else db == old(db))
    {
      if Inv(mode, db) && newId !in db.orgs &&
          FindsCreated(db, user, if mode == SingleMode then Team else Personal, found) {
        EnsureInitialIs(mode, db, user, invited, newId, found);
      }
      hide Inv, Opened, MayEnsure, FindsCreated;
      var plan := PlanFor(mode, invited);
      if plan.Err? {
        return Err(plan.error);
      }
      if !plan.value.create {
        return Ok(false);
      }
      var kind := plan.value.kind;
      var existing := CreatedBy(db, user, kind);
      if user !in db.users || newId in db.orgs || (existing != {} && found !in existing) {
        return Err(ConstraintViolation);
      }
      var tx := db;
      var org, created := found, false;
      if existing == {} {
        tx := tx.(orgs := tx.orgs[newId := Org(kind, Some(user))]);
        org, created := newId, true;
      }
      if (org, user) !in tx.members {
        if HasOwner(tx, org) {
          return Err(ConstraintViolation);
        }
        tx := tx.(members := tx.members[(org, user) := Owner]);
      }
      db := tx;
      return Ok(created);
    }

    method UpdateOrganizationMember(org: nat, user: nat, actor: nat, role: Role) returns (result: Result<bool, Error>)
      modifies this
      ensures Outcome(db, result) == UpdateMember(old(db), org, user, actor, role)
      ensures result.Err? ==> db == old(db)
      ensures Inv(mode, old(db)) ==> Inv(mode, db)
      ensures Inv(mode, old(db)) ==> (result.Ok? <==> MayChangeRole(old(db), org, user, actor, role))
      ensures Inv(mode, old(db)) ==>
        forall o, u :: IsMember(db, o, u) == IsMember(old(db), o, u) && IsOwner(db, o, u) == IsOwner(old(db), o, u)
      ensures result.Ok? ==> db == old(db).(members := old(db).members[(org, user) := role])
    {
      if Inv(mode, db) {
        UpdateMemberKept(mode, db, org, user, actor, role);
        UpdateMemberIs(mode, db, org, user, actor, role);
      }
      hide Inv, MayChangeRole;
      if role != Admin && role != Member {
        return Err(InvalidRole);
      }
      if org !in db.orgs {
        return Err(OrganizationNotFound);
      }
      if (org, actor) !in db.members {
        return Err(ActorNotMember);
      }
      var mine := db.members[(org, actor)];
      if (org, user) !in db.members {
        return Err(MembershipNotFound);
      }
      var current := db.members[(org, user)];
      if mine != Owner && (mine != Admin || current == Owner) {
        return Err(ActorNotAllowed);
      }
      if current == Owner {
        return Err(LastOwner);
      }
      if current == role {
        assert db == WithMember(db, org, user, role);
        return Ok(false);
      }
      db := db.(members := db.members[(org, user) := role]);
      return Ok(true);
    }

    method RemoveOrganizationMember(org: nat, user: nat, actor: nat) returns (result: Result<bool, Error>)
      modifies this
      ensures Outcome(db, result) == RemoveMember(mode, old(db), org, user, actor)
      ensures result.Err? ==> db == old(db)
      ensures Inv(mode, old(db)) ==> Inv(mode, db)
      ensures Inv(mode, old(db)) ==> (result.Ok? <==> MayRemove(mode, old(db), org, user, actor))
      ensures result.Ok? ==> db == old(db).(members := old(db).members - {(org, user)})
    {
      if Inv(mode, db) {
        RemoveMemberKept(mode, db, org, user, actor);
        RemoveMemberIs(mode, db, org, user, actor);
      }
      hide Inv, MayRemove;
      if org !in db.orgs {
        return Err(OrganizationNotFound);
      }
      var row := db.orgs[org];
      if row.kind == Personal && (mode != MultiMode || row.createdBy.None? || row.createdBy.value == user) {
        return Err(PersonalImmutable);
      }
      if (org, actor) !in db.members {
        return Err(ActorNotMember);
      }
      if (org, user) !in db.members {
        return Err(MembershipNotFound);
      }
      var target := db.members[(org, user)];
      if actor != user && !CanRemove(db.members[(org, actor)], target) {
        return Err(ActorNotAllowed);
      }
      var memberships := ListMembers(db, org);
      ListedSize(db, org, memberships);
      if |memberships| == 1 {
        return Err(LastMember);
      }
      var owners := CountOwners(memberships);
      if target == Owner && owners == 1 {
        return Err(LastOwner);
      }
      db := db.(members := db.members - {(org, user)});
      return Ok(true);
    }

    method DeleteOrganization(org: nat, actor: nat) returns (result: Result<bool, Error>)
      modifies this
      ensures Outcome(db, result) == Organizations.DeleteOrganization(mode, old(db), org, actor)
      ensures result.Err? ==> db == old(db)
      ensures Inv(mode, old(db)) ==> Inv(mode, db)
      ensures Inv(mode, old(db)) ==>
        && (result.Ok? <==> MayDelete(mode, old(db), org, actor) &&
                            (mode == SingleMode ==> forall u | IsMember(old(db), org, u) :: u == actor))
        && (result.Ok? ==> Vanished(old(db), db, org))
    {
      if Inv(mode, db) {
        DeleteOrganizationKept(mode, db, org, actor);
        DeleteOrganizationIs(mode, db, org, actor);
      }
      hide Inv, MayDelete, Vanished;
      if org !in db.orgs {
        return Err(OrganizationNotFound);
      }
      if db.orgs[org].kind == Personal {
        return Err(PersonalImmutable);
      }
      if (org, actor) !in db.members {
        return Err(ActorNotMember);
      }
      if db.members[(org, actor)] != Owner {
        return Err(ActorNotAllowed);
      }
      var memberships := ListMembers(db, org);
      ListedSize(db, org, memberships);
      if mode == SingleMode && |memberships| > 1 {
        return Err(HasOtherMembers);
      }
      db := WithoutOrgs(db, {org});
      return Ok(true);
    }

    /** The old owner steps down before the new one takes over: the other order would violate the
        unique index on owners. */
    method TransferOrganizationOwnership(org: nat, actor: nat, successor: nat) returns (result: Result<bool, Error>)
      modifies this
      ensures Outcome(db, result) == TransferOwnership(old(db), org, actor, successor)
      ensures result.Err? ==> db == old(db)
      ensures Inv(mode, old(db)) ==> Inv(mode, db)
      ensures Inv(mode, old(db)) ==> (result.Ok? <==> MayTransfer(old(db), org, actor, successor))
      ensures result.Ok? ==>
        db == old(db).(members := old(db).members[(org, actor) := Admin][(org, successor) := Owner])
    {
      if Inv(mode, db) {
        TransferKept(mode, db, org, actor, successor);
        TransferIs(mode, db, org, actor, successor);
      }
      hide Inv, MayTransfer;
      if actor == successor {
        return Err(InvalidTransfer);
      }
      if actor !in db.users {
        return Err(ActorNotMember);
      }
      if successor !in db.users {
        return Err(MembershipNotFound);
      }
      if org !in db.orgs {
        return Err(OrganizationNotFound);
      }
      if db.orgs[org].kind == Personal {
        return Err(PersonalImmutable);
      }
      if (org, actor) !in db.members {
        return Err(ActorNotMember);
      }
      if db.members[(org, actor)] != Owner {
        return Err(ActorNotAllowed);
      }
      if (org, successor) !in db.members {
        return Err(MembershipNotFound);
      }
      var tx := db;
      tx := tx.(members := tx.members[(org, actor) := Admin]);
      tx := tx.(members := tx.members[(org, successor) := Owner]);
      db := tx;
      return Ok(true);
    }

    /** Lock, check, then apply; `listing` is the user's organizations as read before the locks. */
    method PrepareUserDeletion(user: nat, listing: seq<nat>) returns (error: Option<Error>)
      requires forall i, j | 0 <= i < j < |listing| :: listing[i] != listing[j]
      requires Covers(db, user, listing)
      requires forall m <- db.members :: m.0 in db.orgs
      modifies this
      ensures error == FirstObstacle(mode, old(db), user, listing)
      ensures db == if error.None? then Prepared(old(db), user) else old(db)
    {
      ghost var before := db;
      ghost var ids := LockedIds(before, user, listing);
      var locked := LockOrganizations(user, listing);
      LockedIdsAre(before, user, listing);
      LockedObstacle(mode, before, user, listing);
      error := CheckLocked(user, locked, ids);
      if error.Some? {
        return;
      }
      PreparedStart(before, user);
      for n := 0 to |locked|
        invariant db == PartlyPrepared(before, user, FirstIds(ids, n))
      {
        var item := locked[n];
        FirstNext(ids, n);
        PreparedNext(before, user, FirstIds(ids, n), ids[n]);
        ListedSize(before, item.id, item.memberships);
        hide FirstIds, PartlyPrepared, Prepared, LockedIds, FirstObstacle, Covers, Lists;
        if (item.row.kind == Personal && item.row.createdBy == Some(user)) ||
           (item.row.kind == Team && |item.memberships| == 1) {
          db := WithoutOrgs(db, {item.id});
        } else {
          db := db.(members := db.members - {(item.id, user)});
        }
      }
      PreparedEnd(before, user, FirstIds(ids, |ids|));
    }

    method LockOrganizations(user: nat, listing: seq<nat>) returns (locked: seq<LockedOrg>)
      ensures var ids := LockedIds(db, user, listing);
        |locked| == |ids| && forall i | 0 <= i < |ids| :: locked[i].id == ids[i] && LockedOk(db, user, locked[i])
    {
      locked := [];
      for n := 0 to |listing|
        invariant var ids := LockedIds(db, user, listing[..n]);
          |locked| == |ids| && forall i | 0 <= i < |ids| :: locked[i].id == ids[i] && LockedOk(db, user, locked[i])
      {
        assert listing[..n + 1][..n] == listing[..n];
        var org := listing[n];
        if org !in db.orgs {
          continue;
        }
        var memberships := ListMembers(db, org);
        if (org, user) !in db.members {
          continue;
        }
        locked := locked + [LockedOrg(org, db.orgs[org], db.members[(org, user)], memberships)];
      }
      assert listing[..|listing|] == listing;
    }

    method CheckLocked(user: nat, locked: seq<LockedOrg>, ghost ids: seq<nat>) returns (error: Option<Error>)
      requires |locked| == |ids| && forall i | 0 <= i < |ids| :: locked[i].id == ids[i] && LockedOk(db, user, locked[i])
      ensures error == FirstObstacle(mode, db, user, ids)
    {
      for n := 0 to |locked|
        invariant FirstObstacle(mode, db, user, ids) == FirstObstacle(mode, db, user, ids[n..])
      {
        var item := locked[n];
        ListedSize(db, item.id, item.memberships);
        assert ids[n..][0] == item.id && ids[n..][1..] == ids[n + 1..];
        if item.row.kind == Personal {
          if item.row.createdBy.None? {
            return Some(PersonalImmutable);
          }
          if item.row.createdBy.value == user {
            continue;
          }
          if mode != MultiMode {
            return Some(PersonalImmutable);
          }
        }
        if |item.memberships| == 1 && item.row.kind != Team {
          return Some(LastMember);
        }
        var owners := CountOwners(item.memberships);
        if |item.memberships| > 1 && item.role == Owner && owners == 1 {
          return Some(LastOwner);
        }
      }
      return None;
    }

    method DeleteUser(user: nat, listing: seq<nat>) returns (result: Result<bool, Error>)
      requires forall i, j | 0 <= i < j < |listing| :: listing[i] != listing[j]
      requires Covers(db, user, listing)
      requires forall m <- db.members :: m.0 in db.orgs
      modifies this
      ensures Outcome(db, result) == Organizations.DeleteUser(mode, old(db), user, listing)
    {
      if user !in db.users {
        return Err(UserNotFound);
      }
      var error := PrepareUserDeletion(user, listing);
      if error.Some? {
        return Err(error.value);
      }
      db := WithoutUser(db, user);
      return Ok(true);
    }

    method CreateInvitation(org: nat, actor: Option<nat>, email: Option<string>, role: Option<Role>, now: int, ttl: int,
                            newId: nat, existing: Option<nat>)
      returns (result: Result<bool, Error>)
      modifies this
      ensures Outcome(db, result) ==
        Organizations.CreateInvitation(mode, old(db), org, actor, email, role, now, ttl, newId, existing)
      ensures result.Err? ==> db == old(db)
      ensures Inv(mode, old(db)) ==> Inv(mode, db)
      ensures Inv(mode, old(db)) && (email.Some? ==> FindsPending(old(db), org, email.value, existing)) ==>
        && (result.Ok? <==> MayInvite(mode, old(db), org, actor, email, role, now, newId))
        && (result.Ok? ==>
              var row := Invitation(org, email.value, if role.Some? then role.value else Member, actor, now + ttl,
                                    None, None, None, None);
              Replaced(old(db), db, row, newId, actor, now))
    {
      hide Inv, MayInvite, Replaced, FindsPending;
      if Inv(mode, db) {
        CreateInvitationKept(mode, db, org, actor, email, role, now, ttl, newId, existing);
        if email.Some? ==> FindsPending(db, org, email.value, existing) {
          CreateInvitationIs(mode, db, org, actor, email, role, now, ttl, newId, existing);
        }
      }
      if email.None? {
        return Err(InvalidEmail);
      }
      var normalized := NormalizedRole(role);
      if normalized.Err? {
        return Err(normalized.error);
      }
      if !mode.AllowsInvitations() {
        return Err(InviteForbidden);
      }
      if actor.None? || actor.value !in db.users {
        return Err(ActorNotMember);
      }
      if org !in db.orgs {
        return Err(OrganizationNotFound);
      }
      if (org, actor.value) !in db.members {
        return Err(ActorNotMember);
      }
      if !CanInvite(db.members[(org, actor.value)]) {
        return Err(InviteForbidden);
      }
      if TargetIsMember(db, org, email.value) {
        return Err(MemberExists);
      }
      var tx := db;
      if existing.Some? && ActiveFor(db, existing.value, org, email.value) {
        if db.invitations[existing.value].expiresAt > now {
          return Err(AlreadyPending);
        }
        tx := MarkRevoked(tx, existing.value, actor, now);
      }
      var inserted := Insert(tx, newId, NewInvitation(org, email.value, normalized.value, actor, now + ttl));
      if inserted.result.Err? {
        return inserted.result;
      }
      db := inserted.db;
      return inserted.result;
    }

    method ResendInvitation(org: nat, i: nat, now: int, ttl: int, newId: nat) returns (result: Result<bool, Error>)
      modifies this
      ensures Outcome(db, result) == Organizations.ResendInvitation(mode, old(db), org, i, now, ttl, newId)
      ensures result.Err? ==> db == old(db)
      ensures Inv(mode, old(db)) ==> Inv(mode, db)
      ensures Inv(mode, old(db)) ==>
        && (result.Ok? <==> MayResend(mode, old(db), org, i, newId))
        && (result.Ok? ==>
              var was := old(db).invitations[i];
              var row := Invitation(org, was.email, was.role, was.invitedBy, now + ttl, None, None, None, None);
              Replaced(old(db), db, row, newId, was.invitedBy, now))
    {
      if Inv(mode, db) {
        ResendInvitationKept(mode, db, org, i, now, ttl, newId);
        ResendInvitationIs(mode, db, org, i, now, ttl, newId);
        assert MayResend(mode, db, org, i, newId) ==> i in db.invitations;
      }
      hide Inv, MayResend, Replaced;
      if !mode.AllowsInvitations() {
        return Err(InviteForbidden);
      }
      if i !in db.invitations || db.invitations[i].org != org {
        return Err(InvitationNotFound);
      }
      if org !in db.orgs {
        return Err(OrganizationNotFound);
      }
      var row := db.invitations[i];
      match row.StatusAt(now) {
        case Accepted => return Err(AlreadyAccepted);
        case Revoked => return Err(InvitationRevoked);
        case _ =>
      }
      if TargetIsMember(db, org, row.email) {
        return Err(MemberExists);
      }
      var tx := MarkRevoked(db, i, row.invitedBy, now);
      var inserted := Insert(tx, newId, NewInvitation(org, row.email, row.role, row.invitedBy, now + ttl));
      if inserted.result.Err? {
        return inserted.result;
      }
      db := inserted.db;
      return inserted.result;
    }

    method RevokeInvitation(org: nat, i: nat, revoker: Option<nat>, now: int) returns (result: Result<bool, Error>)
      modifies this
      ensures Outcome(db, result) == Organizations.RevokeInvitation(mode, old(db), org, i, revoker, now)
      ensures result.Err? ==> db == old(db)
      ensures Inv(mode, old(db)) ==> Inv(mode, db)
      ensures Inv(mode, old(db)) ==>
        && (result.Ok? <==> MayRevoke(mode, old(db), org, i, revoker, now))
        && (result.Ok? ==>
              var was := old(db).invitations[i];
              && db == old(db).(invitations :=
                                   old(db).invitations[i := was.(revokedAt := Some(now), revokedBy := revoker)])
              && NonePending(db, org, was.email))
    {
      if Inv(mode, db) {
        RevokeInvitationKept(mode, db, org, i, revoker, now);
        RevokeInvitationIs(mode, db, org, i, revoker, now);
        assert MayRevoke(mode, db, org, i, revoker, now) ==> i in db.invitations;
      }
      hide Inv, MayRevoke, NonePending;
      if !mode.AllowsInvitations() {
        return Err(InviteForbidden);
      }
      if revoker.Some? && revoker.value !in db.users {
        return Err(UserNotFound);
      }
      if org !in db.orgs {
        return Err(OrganizationNotFound);
      }
      if i !in db.invitations || db.invitations[i].org != org {
        return Err(InvitationNotFound);
      }
      match db.invitations[i].StatusAt(now) {
        case Accepted => return Err(AlreadyAccepted);
        case Revoked => return Err(InvitationRevoked);
        case Expired => return Err(InvitationExpired);
        case Pending =>
      }
      db := MarkRevoked(db, i, revoker, now);
      return Ok(true);
    }

    method AcceptInvitation(user: nat, i: nat, now: int) returns (result: Result<bool, Error>)
      modifies this
      ensures Outcome(db, result) == Accept(mode, old(db), user, i, now)
      ensures result != Ok(true) ==> db == old(db)
      ensures Inv(mode, old(db)) ==> Inv(mode, db)
      ensures Inv(mode, old(db)) ==>
        && (result == Ok(true) <==> MayAccept(mode, old(db), user, i, now))
        && (result == Ok(true) ==> Joined(old(db), db, user, i, now))
    {
      if Inv(mode, db) {
        AcceptKept(mode, db, user, i, now);
        AcceptIs(mode, db, user, i, now);
        assert MayAccept(mode, db, user, i, now) ==> i in db.invitations;
      }
      hide Inv, MayAccept, Joined;
      if !mode.AllowsInvitations() {
        return Err(InviteForbidden);
      }
      if i !in db.invitations {
        return Err(InvitationNotFound);
      }
      if user !in db.users {
        return Err(UserNotFound);
      }
      var invitation := db.invitations[i];
      var org := invitation.org;
      if org !in db.orgs {
        return Err(OrganizationNotFound);
      }
      if db.users[user] != invitation.email {
        return Err(EmailMismatch);
      }
      var status := invitation.StatusAt(now);
      if status == Accepted {
        if invitation.acceptedBy == Some(user) {
          if (org, user) !in db.members {
            return Err(MembershipNotFound);
          }
          return Ok(false);
        }
        return Err(AlreadyAccepted);
      }
      match status {
        case Revoked => return Err(InvitationRevoked);
        case Expired => return Err(InvitationExpired);
        case _ =>
      }
      var tx := db;
      if (org, user) !in tx.members {
        if mode == SingleMode && OrgsOf(tx, user) != {} {
          return Err(SingleMembershipConflict);
        }
        if invitation.role == Owner && HasOwner(tx, org) {
          return Err(MembershipNotFound);
        }
        tx := tx.(members := tx.members[(org, user) := invitation.role]);
      }
      db := MarkAccepted(tx, i, user, now);
      return Ok(true);
    }
  }
}
