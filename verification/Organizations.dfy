/** Organization tables and what each operation of internal/organization does to them. A function
    describes one whole transaction: an error leaves the tables as they were. */
module Organizations {
  import opened Wrappers

  datatype Mode = PersonalMode | SingleMode | MultiMode {
    predicate AllowsInvitations() { this != PersonalMode }
    predicate AllowsUserCreatedTeams() { this == MultiMode }
  }

  datatype Kind = Personal | Team
  datatype Role = Owner | Admin | Member
  datatype Org = Org(kind: Kind, createdBy: Option<nat>)

  datatype Status = Accepted | Revoked | Expired | Pending

  datatype Invitation = Invitation(
    org: nat,
    email: string,
    role: Role,
    invitedBy: Option<nat>,
    expiresAt: int,
    acceptedAt: Option<int>,
    acceptedBy: Option<nat>,
    revokedAt: Option<int>,
    revokedBy: Option<nat>)
  {
    predicate Active() { acceptedAt.None? && revokedAt.None? }

    function StatusAt(now: int): Status {
      if acceptedAt.Some? then Accepted
      else if revokedAt.Some? then Revoked
      else if expiresAt <= now then Expired
      else Pending
    }
  }

  /** Users by email; memberships by organization and user. */
  datatype Db = Db(
    users: map<nat, string>,
    orgs: map<nat, Org>,
    members: map<(nat, nat), Role>,
    invitations: map<nat, Invitation>)

  datatype Error =
    | OperationForbidden | InviteForbidden | UserExists | UserNotFound | OrganizationNotFound | MembershipNotFound
    | ActorNotMember | ActorNotAllowed | InvalidRole | InvalidTransfer | InvalidEmail
    | PersonalImmutable | LastMember | LastOwner | HasOtherMembers | SingleMembershipConflict
    | InvitationNotFound | AlreadyPending | AlreadyAccepted | InvitationRevoked | InvitationExpired
    | EmailMismatch | MemberExists | ConstraintViolation

  datatype Outcome = Outcome(db: Db, result: Result<bool, Error>)

  predicate IsMember(db: Db, org: nat, user: nat) {
    (org, user) in db.members
  }

  predicate IsOwner(db: Db, org: nat, user: nat) {
    (org, user) in db.members && db.members[(org, user)] == Owner
  }

  function MembersOf(db: Db, org: nat): set<nat> {
    set m <- db.members | m.0 == org :: m.1
  }

  function OrgsOf(db: Db, user: nat): set<nat> {
    set m <- db.members | m.1 == user :: m.0
  }

  // Row operations

  function WithMember(db: Db, org: nat, user: nat, role: Role): Db {
    db.(members := db.members[(org, user) := role])
  }

  function WithoutMember(db: Db, org: nat, user: nat): Db {
    db.(members := db.members - {(org, user)})
  }

  /** Deletes the rows of the organizations; memberships and invitations cascade. */
  function WithoutOrgs(db: Db, gone: set<nat>): Db {
    Db(db.users,
       db.orgs - gone,
       map m <- db.members | m.0 !in gone :: db.members[m],
       map i <- db.invitations | db.invitations[i].org !in gone :: db.invitations[i])
  }

  /** Deletes a user after DeleteUserEmailReferences; references to the user become null. */
  function WithoutUser(db: Db, user: nat): Db
    requires user in db.users
  {
    var email := db.users[user];
    Db(db.users - {user},
       map o <- db.orgs :: if db.orgs[o].createdBy == Some(user) then db.orgs[o].(createdBy := None) else db.orgs[o],
       map m <- db.members | m.1 != user :: db.members[m],
       map i <- db.invitations | db.invitations[i].email != email && db.invitations[i].acceptedBy != Some(user) ::
         Forgotten(db.invitations[i], user))
  }

  function Forgotten(invitation: Invitation, user: nat): Invitation {
    invitation.(
      invitedBy := if invitation.invitedBy == Some(user) then None else invitation.invitedBy,
      revokedBy := if invitation.revokedBy == Some(user) then None else invitation.revokedBy)
  }

  predicate HasOwner(db: Db, org: nat) {
    exists m <- db.members :: m.0 == org && db.members[m] == Owner
  }

  // service.go

  datatype Plan = Plan(create: bool, kind: Kind, accept: bool)

  /** SignupOrganizationPlanFor. */
  function PlanFor(mode: Mode, invited: bool): Result<Plan, Error> {
    match mode
    case PersonalMode => if invited then Err(InviteForbidden) else Ok(Plan(true, Personal, false))
    case SingleMode => if invited then Ok(Plan(false, Team, true)) else Ok(Plan(true, Team, false))
    case MultiMode => Ok(Plan(true, Personal, invited))
  }

  function CreatedBy(db: Db, user: nat, kind: Kind): set<nat> {
    set o <- db.orgs | db.orgs[o] == Org(kind, Some(user))
  }

  /** EnsureOrganizationForUserWithCreated: `found` is the row the LIMIT 1 query returns when the
      user already created organizations of the kind. Ok says whether one was created. */
  function EnsureOrganization(db: Db, user: nat, kind: Kind, newId: nat, found: nat): Outcome {
    var existing := CreatedBy(db, user, kind);
    if user !in db.users || newId in db.orgs || (existing != {} && found !in existing)
    then Outcome(db, Err(ConstraintViolation))
    else if existing == {} then
      Outcome(WithMember(db.(orgs := db.orgs[newId := Org(kind, Some(user))]), newId, user, Owner), Ok(true))
    else if IsMember(db, found, user) then Outcome(db, Ok(false))
    else if HasOwner(db, found) then Outcome(db, Err(ConstraintViolation))
    else Outcome(WithMember(db, found, user, Owner), Ok(false))
  }

  function EnsureInitial(mode: Mode, db: Db, user: nat, invited: bool, newId: nat, found: nat): Outcome {
    var plan := PlanFor(mode, invited);
    if plan.Err? then Outcome(db, Err(plan.error))
    else if !plan.value.create then Outcome(db, Ok(false))
    else EnsureOrganization(db, user, plan.value.kind, newId, found)
  }

  /** Signup in one transaction: the user, the first organization and the invitation. */
  function Signup(mode: Mode, db: Db, user: nat, email: string, invitation: Option<nat>, now: int, newId: nat,
                  found: nat): Outcome
  {
    var plan := PlanFor(mode, invitation.Some?);
    if plan.Err? then Outcome(db, Err(plan.error))
    else if user in db.users || email in db.users.Values then Outcome(db, Err(UserExists))
    else
      var added := db.(users := db.users[user := email]);
      var ensured := EnsureInitial(mode, added, user, invitation.Some?, newId, found);
      if ensured.result.Err? then Outcome(db, ensured.result)
      else if !plan.value.accept || invitation.None? then ensured
      else
        var accepted := Accept(mode, ensured.db, user, invitation.value, now);
        if accepted.result.Err? then Outcome(db, accepted.result) else accepted
  }

  function CreateOrganization(mode: Mode, db: Db, actor: Option<nat>, newId: nat): Outcome {
    if !mode.AllowsUserCreatedTeams() then Outcome(db, Err(OperationForbidden))
    else if actor.None? || actor.value !in db.users then Outcome(db, Err(UserNotFound))
    else if newId in db.orgs then Outcome(db, Err(ConstraintViolation))
    else
      Outcome(WithMember(db.(orgs := db.orgs[newId := Org(Team, actor)]), newId, actor.value, Owner), Ok(true))
  }

  function UpdateMember(db: Db, org: nat, user: nat, actor: nat, role: Role): Outcome {
    if role == Owner then Outcome(db, Err(InvalidRole))
    else if org !in db.orgs then Outcome(db, Err(OrganizationNotFound))
    else if !IsMember(db, org, actor) then Outcome(db, Err(ActorNotMember))
    else if !IsMember(db, org, user) then Outcome(db, Err(MembershipNotFound))
    else
      var mine, current := db.members[(org, actor)], db.members[(org, user)];
      if mine != Owner && (mine != Admin || current == Owner) then Outcome(db, Err(ActorNotAllowed))
      else if current == Owner then Outcome(db, Err(LastOwner))
      else Outcome(WithMember(db, org, user, role), Ok(current != role))
  }

  // lifecycle.go

  /** canRemoveOrganizationMember. */
  predicate CanRemove(actor: Role, target: Role) {
    actor == Owner || (actor == Admin && target != Owner)
  }

  function RemoveMember(mode: Mode, db: Db, org: nat, user: nat, actor: nat): Outcome {
    if org !in db.orgs then Outcome(db, Err(OrganizationNotFound))
    else if db.orgs[org].kind == Personal &&
            (mode != MultiMode || db.orgs[org].createdBy.None? || db.orgs[org].createdBy == Some(user)) then
      Outcome(db, Err(PersonalImmutable))
    else if !IsMember(db, org, actor) then Outcome(db, Err(ActorNotMember))
    else if !IsMember(db, org, user) then Outcome(db, Err(MembershipNotFound))
    else if actor != user && !CanRemove(db.members[(org, actor)], db.members[(org, user)]) then
      Outcome(db, Err(ActorNotAllowed))
    else if |MembersOf(db, org)| == 1 then Outcome(db, Err(LastMember))
    else if IsOwner(db, org, user) && |OwnersOf(db, org)| == 1 then Outcome(db, Err(LastOwner))
    else Outcome(WithoutMember(db, org, user), Ok(true))
  }

  function OwnersOf(db: Db, org: nat): set<nat> {
    set m <- db.members | m.0 == org && db.members[m] == Owner :: m.1
  }

  function DeleteOrganization(mode: Mode, db: Db, org: nat, actor: nat): Outcome {
    if org !in db.orgs then Outcome(db, Err(OrganizationNotFound))
    else if db.orgs[org].kind == Personal then Outcome(db, Err(PersonalImmutable))
    else if !IsMember(db, org, actor) then Outcome(db, Err(ActorNotMember))
    else if !IsOwner(db, org, actor) then Outcome(db, Err(ActorNotAllowed))
    else if mode == SingleMode && |MembersOf(db, org)| > 1 then Outcome(db, Err(HasOtherMembers))
    else Outcome(WithoutOrgs(db, {org}), Ok(true))
  }

  function TransferOwnership(db: Db, org: nat, actor: nat, successor: nat): Outcome {
    if actor == successor then Outcome(db, Err(InvalidTransfer))
    else if actor !in db.users then Outcome(db, Err(ActorNotMember))
    else if successor !in db.users then Outcome(db, Err(MembershipNotFound))
    else if org !in db.orgs then Outcome(db, Err(OrganizationNotFound))
    else if db.orgs[org].kind == Personal then Outcome(db, Err(PersonalImmutable))
    else if !IsMember(db, org, actor) then Outcome(db, Err(ActorNotMember))
    else if !IsOwner(db, org, actor) then Outcome(db, Err(ActorNotAllowed))
    else if !IsMember(db, org, successor) then Outcome(db, Err(MembershipNotFound))
    else Outcome(WithMember(WithMember(db, org, actor, Admin), org, successor, Owner), Ok(true))
  }

  /** Why a membership stops its user from being deleted. */
  function Obstacle(mode: Mode, db: Db, org: nat, user: nat): Option<Error>
    requires org in db.orgs && IsMember(db, org, user)
  {
    var row := db.orgs[org];
    if row.kind == Personal && row.createdBy.None? then Some(PersonalImmutable)
    else if row.kind == Personal && row.createdBy == Some(user) then None
    else if row.kind == Personal && mode != MultiMode then Some(PersonalImmutable)
    else if |MembersOf(db, org)| == 1 && row.kind != Team then Some(LastMember)
    else if |MembersOf(db, org)| > 1 && IsOwner(db, org, user) && |OwnersOf(db, org)| == 1 then Some(LastOwner)
    else None
  }

  /** The organizations deleted with their user: the user's own personal ones, and teams where the
      user is alone. */
  predicate Doomed(db: Db, org: nat, user: nat) {
    && org in db.orgs && IsMember(db, org, user)
    && (db.orgs[org] == Org(Personal, Some(user)) || (db.orgs[org].kind == Team && |MembersOf(db, org)| == 1))
  }

  function DoomedOrgs(db: Db, user: nat): set<nat> {
    set o <- db.orgs | Doomed(db, o, user)
  }

  predicate Deletable(mode: Mode, db: Db, user: nat) {
    forall o <- db.orgs | IsMember(db, o, user) :: Obstacle(mode, db, o, user).None?
  }

  /** The error of the first obstacle in the order of `listing`; organizations the user has left
      since the listing was read are skipped. */
  function FirstObstacle(mode: Mode, db: Db, user: nat, listing: seq<nat>): Option<Error> {
    if listing == [] then None
    else if listing[0] in db.orgs && IsMember(db, listing[0], user) && Obstacle(mode, db, listing[0], user).Some? then
      Obstacle(mode, db, listing[0], user)
    else FirstObstacle(mode, db, user, listing[1..])
  }

  /** A listing read before the organizations were locked. The lock on the user row keeps new
      memberships out, so nothing is missing from it. */
  predicate Covers(db: Db, user: nat, listing: seq<nat>) {
    forall o <- db.orgs | IsMember(db, o, user) :: o in listing
  }

  /** The transaction of internal/auth/service.go that deletes a user. */
  function DeleteUser(mode: Mode, db: Db, user: nat, listing: seq<nat>): Outcome {
    if user !in db.users then Outcome(db, Err(UserNotFound))
    else
      var obstacle := FirstObstacle(mode, db, user, listing);
      if obstacle.Some? then Outcome(db, Err(obstacle.value))
      else Outcome(WithoutUser(Prepared(db, user), user), Ok(true))
  }

  /** The tables after PrepareUserDeletion. */
  function Prepared(db: Db, user: nat): Db {
    var rest := WithoutOrgs(db, DoomedOrgs(db, user));
    rest.(members := map m <- rest.members | m.1 != user :: rest.members[m])
  }

  // invitations.go

  predicate CanInvite(role: Role) {
    role == Owner || role == Admin
  }

  /** normalizeInvitationRole; None is the empty role. */
  function NormalizedRole(role: Option<Role>): Result<Role, Error> {
    if role.None? then Ok(Member) else if role.value == Owner then Err(InvalidRole) else Ok(role.value)
  }

  predicate ActiveFor(db: Db, i: nat, org: nat, email: string) {
    && i in db.invitations && db.invitations[i].org == org && db.invitations[i].email == email
    && db.invitations[i].Active()
  }

  /** ensureInvitationTargetNotMember fails. */
  predicate TargetIsMember(db: Db, org: nat, email: string) {
    exists u <- db.users :: db.users[u] == email && IsMember(db, org, u)
  }

  function MarkRevoked(db: Db, i: nat, revoker: Option<nat>, now: int): Db
    requires i in db.invitations
  {
    db.(invitations := db.invitations[i := db.invitations[i].(revokedAt := Some(now), revokedBy := revoker)])
  }

  function MarkAccepted(db: Db, i: nat, acceptor: nat, now: int): Db
    requires i in db.invitations
  {
    db.(invitations := db.invitations[i := db.invitations[i].(acceptedAt := Some(now), acceptedBy := Some(acceptor))])
  }

  /** CreateOrganizationInvitation, under the unique index on active invitations. */
  function Insert(db: Db, i: nat, invitation: Invitation): Outcome {
    if i in db.invitations then Outcome(db, Err(ConstraintViolation))
    else if exists j <- db.invitations :: ActiveFor(db, j, invitation.org, invitation.email)
    then Outcome(db, Err(AlreadyPending))
    else Outcome(db.(invitations := db.invitations[i := invitation]), Ok(true))
  }

  function NewInvitation(org: nat, email: string, role: Role, invitedBy: Option<nat>, expiresAt: int): Invitation {
    Invitation(org, email, role, invitedBy, expiresAt, None, None, None, None)
  }

  /** `existing` is the pending row the query for the address returns, if it returns one. */
  function InviteAddress(db: Db, invitation: Invitation, actor: Option<nat>, now: int, newId: nat,
                         existing: Option<nat>): Outcome
  {
    if existing.None? || !ActiveFor(db, existing.value, invitation.org, invitation.email) then
      Commit(db, Insert(db, newId, invitation))
    else if db.invitations[existing.value].expiresAt > now then Outcome(db, Err(AlreadyPending))
    else Commit(db, Insert(MarkRevoked(db, existing.value, actor, now), newId, invitation))
  }

  function CreateInvitation(mode: Mode, db: Db, org: nat, actor: Option<nat>, email: Option<string>, role: Option<Role>,
                            now: int, ttl: int, newId: nat, existing: Option<nat>): Outcome {
    if email.None? then Outcome(db, Err(InvalidEmail))
    else if NormalizedRole(role).Err? then Outcome(db, Err(InvalidRole))
    else if !mode.AllowsInvitations() then Outcome(db, Err(InviteForbidden))
    else if actor.None? || actor.value !in db.users then Outcome(db, Err(ActorNotMember))
    else if org !in db.orgs then Outcome(db, Err(OrganizationNotFound))
    else if !IsMember(db, org, actor.value) then Outcome(db, Err(ActorNotMember))
    else if !CanInvite(db.members[(org, actor.value)]) then Outcome(db, Err(InviteForbidden))
    else if TargetIsMember(db, org, email.value) then Outcome(db, Err(MemberExists))
    else
      InviteAddress(db, NewInvitation(org, email.value, NormalizedRole(role).value, actor, now + ttl), actor, now,
                    newId, existing)
  }

  /** A failed last statement undoes the earlier ones. */
  function Commit(before: Db, outcome: Outcome): Outcome {
    if outcome.result.Err? then Outcome(before, outcome.result) else outcome
  }

  function ResendInvitation(mode: Mode, db: Db, org: nat, i: nat, now: int, ttl: int, newId: nat): Outcome {
    if !mode.AllowsInvitations() then Outcome(db, Err(InviteForbidden))
    else if i !in db.invitations || db.invitations[i].org != org then Outcome(db, Err(InvitationNotFound))
    else if org !in db.orgs then Outcome(db, Err(OrganizationNotFound))
    else
      var row := db.invitations[i];
      match row.StatusAt(now)
      case Accepted => Outcome(db, Err(AlreadyAccepted))
      case Revoked => Outcome(db, Err(InvitationRevoked))
      case _ =>
        if TargetIsMember(db, org, row.email) then Outcome(db, Err(MemberExists))
        else
          Commit(db, Insert(MarkRevoked(db, i, row.invitedBy, now), newId,
                            NewInvitation(org, row.email, row.role, row.invitedBy, now + ttl)))
  }

  function RevokeInvitation(mode: Mode, db: Db, org: nat, i: nat, revoker: Option<nat>, now: int): Outcome {
    if !mode.AllowsInvitations() then Outcome(db, Err(InviteForbidden))
    else if revoker.Some? && revoker.value !in db.users then Outcome(db, Err(UserNotFound))
    else if org !in db.orgs then Outcome(db, Err(OrganizationNotFound))
    else if i !in db.invitations || db.invitations[i].org != org then Outcome(db, Err(InvitationNotFound))
    else
      match db.invitations[i].StatusAt(now)
      case Accepted => Outcome(db, Err(AlreadyAccepted))
      case Revoked => Outcome(db, Err(InvitationRevoked))
      case Expired => Outcome(db, Err(InvitationExpired))
      case Pending => Outcome(MarkRevoked(db, i, revoker, now), Ok(true))
  }

  /** acceptInvitation: Ok says whether this call accepted the invitation. */
  function Accept(mode: Mode, db: Db, user: nat, i: nat, now: int): Outcome {
    if !mode.AllowsInvitations() then Outcome(db, Err(InviteForbidden))
    else if i !in db.invitations then Outcome(db, Err(InvitationNotFound))
    else if user !in db.users then Outcome(db, Err(UserNotFound))
    else
      var invitation := db.invitations[i];
      var org := invitation.org;
      if org !in db.orgs then Outcome(db, Err(OrganizationNotFound))
      else if db.users[user] != invitation.email then Outcome(db, Err(EmailMismatch))
      else
        match invitation.StatusAt(now)
        case Accepted =>
          if invitation.acceptedBy != Some(user) then Outcome(db, Err(AlreadyAccepted))
          else if !IsMember(db, org, user) then Outcome(db, Err(MembershipNotFound))
          else Outcome(db, Ok(false))
        case Revoked => Outcome(db, Err(InvitationRevoked))
        case Expired => Outcome(db, Err(InvitationExpired))
        case Pending =>
          if IsMember(db, org, user) then Outcome(MarkAccepted(db, i, user, now), Ok(true))
          else if mode == SingleMode && OrgsOf(db, user) != {} then Outcome(db, Err(SingleMembershipConflict))
          else if invitation.role == Owner && HasOwner(db, org) then Outcome(db, Err(MembershipNotFound))
          else Outcome(MarkAccepted(WithMember(db, org, user, invitation.role), i, user, now), Ok(true))
  }
}
