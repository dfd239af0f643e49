/**
 Workspace membership: creation, invitation, role changes and removal, with the permission
 check at the door.  Requests on one workspace are taken one at a time.
 */
module Membership {
  import opened Wrappers

  type Id = nat

  datatype Role = Owner | Admin | Member | Viewer

  datatype Outcome = Done | Forbidden | UserNotFound | AlreadyMember | MemberNotFound | LastOwner

  type Members = map<(Id, Id), Role>

  datatype State = State(members: Members, users: set<Id>, nextWorkspace: Id)

  /** `None` stands for an email address that no user has. */
  datatype Request =
    | Create(user: Id)
    | Invite(workspace: Id, actor: Id, invitee: Option<Id>, role: Role)
    | UpdateRole(workspace: Id, actor: Id, target: Id, role: Role)
    | Remove(workspace: Id, actor: Id, target: Id)

  function OwnerKeys(members: Members, w: Id): set<(Id, Id)> {
    set k | k in members && k.0 == w && members[k] == Owner
  }

  function CountOwners(members: Members, w: Id): nat {
    |OwnerKeys(members, w)|
  }

  /** Only members with the manage-members permission get past the route's guard. */
  predicate MayManage(members: Members, w: Id, actor: Id) {
    (w, actor) in members && (members[(w, actor)] == Owner || members[(w, actor)] == Admin)
  }

  function InviteMember(s: State, w: Id, actor: Id, invitee: Option<Id>, role: Role): (State, Outcome) {
    if !MayManage(s.members, w, actor) then (s, Forbidden)
    else if s.members[(w, actor)] == Admin && role == Owner then (s, Forbidden)
    else if invitee.None? then (s, UserNotFound)
    else if (w, invitee.value) in s.members then (s, AlreadyMember)
    else (s.(members := s.members[(w, invitee.value) := role]), Done)
  }

  function UpdateMemberRole(s: State, w: Id, actor: Id, target: Id, role: Role): (State, Outcome) {
    if !MayManage(s.members, w, actor) then (s, Forbidden)
    else if (w, target) !in s.members then (s, MemberNotFound)
    else
      var oldRole := s.members[(w, target)];
      if s.members[(w, actor)] == Admin && (oldRole == Owner || role == Owner) then (s, Forbidden)
      else if oldRole == Owner && role != Owner && CountOwners(s.members, w) == 1 then (s, LastOwner)
      else
        // The user row is looked up only after the change is committed.
        (s.(members := s.members[(w, target) := role]), if target in s.users then Done else MemberNotFound)
  }

  function RemoveMember(s: State, w: Id, actor: Id, target: Id): (State, Outcome) {
    if !MayManage(s.members, w, actor) then (s, Forbidden)
    else if (w, target) !in s.members then (s, MemberNotFound)
    else if s.members[(w, actor)] == Admin && s.members[(w, target)] == Owner then (s, Forbidden)
    else if s.members[(w, target)] == Owner && CountOwners(s.members, w) == 1 then (s, LastOwner)
    else (s.(members := s.members - {(w, target)}), Done)
  }

  function CreateWorkspace(s: State, user: Id): (State, Outcome) {
    (s.(members := s.members[(s.nextWorkspace, user) := Owner], nextWorkspace := s.nextWorkspace + 1), Done)
  }

  function Handle(s: State, r: Request): (State, Outcome) {
    match r
    case Create(user) => CreateWorkspace(s, user)
    case Invite(w, actor, invitee, role) => InviteMember(s, w, actor, invitee, role)
    case UpdateRole(w, actor, target, role) => UpdateMemberRole(s, w, actor, target, role)
    case Remove(w, actor, target) => RemoveMember(s, w, actor, target)
  }

  /** The membership table as the service updates it. */
  class WorkspaceStore {
    var members: Members
    var users: set<Id>
    var nextWorkspace: Id

    ghost function Snapshot(): State
      reads this
    {
      State(members, users, nextWorkspace)
    }

    method Create(user: Id) returns (w: Id)
      modifies this
      ensures w == old(nextWorkspace) && (Snapshot(), Done) == CreateWorkspace(old(Snapshot()), user)
    {
      w := nextWorkspace;
      members, nextWorkspace := members[(w, user) := Owner], nextWorkspace + 1;
    }

    method Invite(w: Id, actor: Id, invitee: Option<Id>, role: Role) returns (outcome: Outcome)
      modifies this
      ensures (Snapshot(), outcome) == InviteMember(old(Snapshot()), w, actor, invitee, role)
    {
      if !MayManage(members, w, actor) { return Forbidden; }
      if members[(w, actor)] == Admin && role == Owner { return Forbidden; }
      if invitee.None? { return UserNotFound; }
      if (w, invitee.value) in members { return AlreadyMember; }
      members := members[(w, invitee.value) := role];
      return Done;
    }

    method UpdateRole(w: Id, actor: Id, target: Id, role: Role) returns (outcome: Outcome)
      modifies this
      ensures (Snapshot(), outcome) == UpdateMemberRole(old(Snapshot()), w, actor, target, role)
    {
      if !MayManage(members, w, actor) { return Forbidden; }
      if (w, target) !in members { return MemberNotFound; }
      var oldRole := members[(w, target)];
      if members[(w, actor)] == Admin {
        if oldRole == Owner { return Forbidden; }
        if role == Owner { return Forbidden; }
      }
      if oldRole == Owner && role != Owner && CountOwners(members, w) == 1 { return LastOwner; }
      members := members[(w, target) := role];
      if target !in users { return MemberNotFound; }
      return Done;
    }

    method Remove(w: Id, actor: Id, target: Id) returns (outcome: Outcome)
      modifies this
      ensures (Snapshot(), outcome) == RemoveMember(old(Snapshot()), w, actor, target)
    {
      if !MayManage(members, w, actor) { return Forbidden; }
      if (w, target) !in members { return MemberNotFound; }
      if members[(w, actor)] == Admin && members[(w, target)] == Owner { return Forbidden; }
      if members[(w, target)] == Owner && CountOwners(members, w) == 1 { return LastOwner; }
      members := members - {(w, target)};
      return Done;
    }
  }

  // ----- what every run keeps

  /** Every workspace that was created has an owner; members are users of existing workspaces. */
  ghost predicate Inv(s: State) {
    && (forall w :: 0 <= w < s.nextWorkspace ==> OwnerKeys(s.members, w) != {})
    && (forall k :: k in s.members ==> k.0 < s.nextWorkspace && k.1 in s.users)
  }

  /** What the environment guarantees of a request: users that it names by id exist. */
  ghost predicate KnownUsers(s: State, r: Request) {
    match r
    case Create(user) => user in s.users
    case Invite(_, _, invitee, _) => invitee.Some? ==> invitee.value in s.users
    case _ => true
  }

  lemma OnlyOwner(members: Members, w: Id, k: (Id, Id))
    requires k in OwnerKeys(members, w)
    ensures CountOwners(members, w) == 1 <==> OwnerKeys(members, w) == {k}
  {
    var rest := OwnerKeys(members, w) - {k};
    assert OwnerKeys(members, w) == rest + {k};
    assert |rest| == 0 <==> rest == {};
  }

  lemma SetRoleOwners(members: Members, w: Id, target: Id, role: Role, x: Id)
    ensures var after := members[(w, target) := role];
      OwnerKeys(after, x)
      == OwnerKeys(members, x) - {(w, target)} + (if x == w && role == Owner then {(w, target)} else {})
  {
  }

  lemma DropOwners(members: Members, w: Id, target: Id, x: Id)
    ensures OwnerKeys(members - {(w, target)}, x) == OwnerKeys(members, x) - {(w, target)}
  {
  }

  /** No handled request takes the last owner away, from its own or any other workspace. */
  lemma RequestKeepsOwner(s: State, r: Request)
    requires Inv(s) && KnownUsers(s, r)
    ensures Inv(Handle(s, r).0)
  {
    var s' := Handle(s, r).0;
    forall x | 0 <= x < s'.nextWorkspace
      ensures OwnerKeys(s'.members, x) != {}
    {
      OwnersRemain(s, r, x);
    }
  }

  lemma OwnersRemain(s: State, r: Request, x: Id)
    requires Inv(s) && x < Handle(s, r).0.nextWorkspace
    ensures OwnerKeys(Handle(s, r).0.members, x) != {}
  {
    match r
    case Create(user) =>
      assert (s.nextWorkspace, user) in Handle(s, r).0.members;
      if x < s.nextWorkspace {
        assert OwnerKeys(s.members, x) != {};
        var k :| k in OwnerKeys(s.members, x);
        assert k in OwnerKeys(Handle(s, r).0.members, x);
      } else {
        assert (x, user) in OwnerKeys(Handle(s, r).0.members, x);
      }
    case Invite(w, actor, invitee, role) =>
      assert OwnerKeys(s.members, x) != {};
      var k :| k in OwnerKeys(s.members, x);
      assert k in OwnerKeys(Handle(s, r).0.members, x);
    case UpdateRole(w, actor, target, role) =>
      SetRoleOwners(s.members, w, target, role, x);
      OwnersAfterLoss(s.members, w, target, x);
    case Remove(w, actor, target) =>
      DropOwners(s.members, w, target, x);
      OwnersAfterLoss(s.members, w, target, x);
  }

  /** Losing one key empties a workspace's owners only if it was the only one. */
  lemma OwnersAfterLoss(members: Members, w: Id, target: Id, x: Id)
    requires OwnerKeys(members, x) != {}
    ensures OwnerKeys(members, x) - {(w, target)} == {} <==>
      x == w && (w, target) in OwnerKeys(members, w) && CountOwners(members, w) == 1
  {
    var k :| k in OwnerKeys(members, x);
    if (w, target) in OwnerKeys(members, w) {
      OnlyOwner(members, w, (w, target));
    }
    if x != w {
      assert k in OwnerKeys(members, x) - {(w, target)};
    }
  }

  ghost function Run(s: State, requests: seq<Request>): State
    decreases |requests|
  {
    if requests == [] then s else Run(Handle(s, requests[0]).0, requests[1..])
  }

  /** On every run each workspace keeps at least one owner. */
  lemma {:induction false} EveryRunKeepsOwners(s: State, requests: seq<Request>)
    requires Inv(s) && forall i :: 0 <= i < |requests| ==> KnownUsers(s, requests[i])
    ensures Inv(Run(s, requests))
    decreases |requests|
  {
    if requests != [] {
      RequestKeepsOwner(s, requests[0]);
      EveryRunKeepsOwners(Handle(s, requests[0]).0, requests[1..]);
    }
  }

  ghost predicate ActsOn(r: Request, w: Id, actor: Id) {
    !r.Create? && r.workspace == w && r.actor == actor
  }

  /** The role of a user in a workspace, if it is a member. */
  ghost function RoleIn(s: State, w: Id, user: Id): Option<Role> {
    if (w, user) in s.members then Some(s.members[(w, user)]) else None
  }

  /** An admin never changes who the owners are; anyone below, or outside, changes no membership. */
  lemma RolesAreConfined(s: State, r: Request, w: Id, actor: Id)
    requires ActsOn(r, w, actor)
    ensures (w, actor) in s.members && s.members[(w, actor)] == Admin ==>
      forall x :: OwnerKeys(Handle(s, r).0.members, x) == OwnerKeys(s.members, x)
    ensures RoleIn(s, w, actor) in {None, Some(Member), Some(Viewer)} ==> Handle(s, r) == (s, Forbidden)
  {
    if (w, actor) in s.members && s.members[(w, actor)] == Admin {
      forall x
        ensures OwnerKeys(Handle(s, r).0.members, x) == OwnerKeys(s.members, x)
      {
        match r
        case Invite(_, _, invitee, role) => if invitee.Some? { SetRoleOwners(s.members, w, invitee.value, role, x); }
        case UpdateRole(_, _, target, role) => SetRoleOwners(s.members, w, target, role, x);
        case Remove(_, _, target) => DropOwners(s.members, w, target, x);
      }
    }
  }

  // ----- every answer, told by the roles alone

  /** Another member than `user` is an owner of the workspace. */
  ghost predicate HasOtherOwner(s: State, w: Id, user: Id) {
    exists k :: k in s.members && k.0 == w && k.1 != user && s.members[k] == Owner
  }

  /** The request would make someone an owner, or takes an owner's role or membership. */
  ghost predicate TouchesOwner(s: State, r: Request) {
    match r
    case Create(_) => false
    case Invite(_, _, _, role) => role == Owner
    case UpdateRole(w, _, target, role) =>
      RoleIn(s, w, target) == Some(Owner) || (RoleIn(s, w, target).Some? && role == Owner)
    case Remove(w, _, target) => RoleIn(s, w, target) == Some(Owner)
  }

  /** Who is refused: everybody but owners and admins; an admin exactly where an owner is concerned. */
  lemma ForbiddenExactly(s: State, r: Request, w: Id, actor: Id)
    requires ActsOn(r, w, actor)
    ensures RoleIn(s, w, actor) in {None, Some(Member), Some(Viewer)} ==> Handle(s, r) == (s, Forbidden)
    ensures RoleIn(s, w, actor) == Some(Owner) ==> Handle(s, r).1 != Forbidden
    ensures RoleIn(s, w, actor) == Some(Admin) ==> (Handle(s, r).1 == Forbidden <==> TouchesOwner(s, r))
  {
  }

  lemma OnlyOwnerExactly(s: State, w: Id, user: Id)
    requires RoleIn(s, w, user) == Some(Owner)
    ensures CountOwners(s.members, w) == 1 <==> !HasOtherOwner(s, w, user)
  {
    var k := (w, user);
    OnlyOwner(s.members, w, k);
    if OwnerKeys(s.members, w) != {k} {
      var other :| other in OwnerKeys(s.members, w) && other != k;
      assert other.0 == w && other.1 != user && s.members[other] == Owner;
    }
    if HasOtherOwner(s, w, user) {
      var other :| other in s.members && other.0 == w && other.1 != user && s.members[other] == Owner;
      assert other in OwnerKeys(s.members, w) && other != k;
    }
  }

  /** The table differs for this member of this workspace only. */
  ghost predicate OnlyChanges(s: State, s': State, w: Id, user: Id) {
    && s'.users == s.users && s'.nextWorkspace == s.nextWorkspace
    && forall x: Id, u: Id :: (x, u) != (w, user) ==> RoleIn(s', x, u) == RoleIn(s, x, u)
  }

  /** Behind the permission check: what an invitation answers and does. */
  lemma InviteExactly(s: State, w: Id, actor: Id, invitee: Option<Id>, role: Role)
    ensures
      var (s', outcome) := Handle(s, Invite(w, actor, invitee, role));
      && (outcome != Forbidden ==>
          && (outcome == UserNotFound <==> invitee == None)
          && (outcome == AlreadyMember <==> invitee.Some? && RoleIn(s, w, invitee.value).Some?)
          && (outcome == Done <==> invitee.Some? && RoleIn(s, w, invitee.value) == None))
      && (outcome == Done ==> RoleIn(s', w, invitee.value) == Some(role) && OnlyChanges(s, s', w, invitee.value))
      && (outcome != Done ==> s' == s)
  {
  }

  /** A role change, with its late lookup of the user. */
  lemma UpdateRoleExactly(s: State, w: Id, actor: Id, target: Id, role: Role)
    ensures
      var (s', outcome) := Handle(s, UpdateRole(w, actor, target, role));
      var oldRole := RoleIn(s, w, target);
      && (outcome != Forbidden ==>
          && (outcome == LastOwner <==> oldRole == Some(Owner) && role != Owner && !HasOtherOwner(s, w, target))
          && (outcome == Done <==> outcome != LastOwner && oldRole.Some? && target in s.users)
          && (outcome == MemberNotFound <==> outcome != LastOwner && (oldRole == None || target !in s.users))
          && (outcome != LastOwner && oldRole.Some? ==> RoleIn(s', w, target) == Some(role)))
      && OnlyChanges(s, s', w, target)
      && (outcome in {Forbidden, LastOwner} || oldRole == None ==> s' == s)
  {
    if RoleIn(s, w, target) == Some(Owner) {
      OnlyOwnerExactly(s, w, target);
    }
  }

  lemma RemoveExactly(s: State, w: Id, actor: Id, target: Id)
    ensures
      var (s', outcome) := Handle(s, Remove(w, actor, target));
      var oldRole := RoleIn(s, w, target);
      && (outcome != Forbidden ==>
          && (outcome == MemberNotFound <==> oldRole == None)
          && (outcome == LastOwner <==> oldRole == Some(Owner) && !HasOtherOwner(s, w, target))
          && (outcome == Done <==> outcome != LastOwner && oldRole.Some?))
      && (outcome == Done ==> RoleIn(s', w, target) == None && OnlyChanges(s, s', w, target))
      && (outcome != Done ==> s' == s)
  {
    if RoleIn(s, w, target) == Some(Owner) {
      OnlyOwnerExactly(s, w, target);
    }
  }

  /** A new workspace has its creator as owner and nobody else, and no other workspace is touched. */
  lemma CreateExactly(s: State, user: Id)
    requires Inv(s)
    ensures
      var (s', outcome) := Handle(s, Create(user));
      && outcome == Done && s'.users == s.users && s'.nextWorkspace == s.nextWorkspace + 1
      && (forall u: Id :: RoleIn(s', s.nextWorkspace, u) == if u == user then Some(Owner) else None)
      && (forall w: Id, u: Id :: w != s.nextWorkspace ==> RoleIn(s', w, u) == RoleIn(s, w, u))
  {
  }

  /** A request on one workspace leaves every membership of every other workspace alone. */
  lemma WorkspacesAreIsolated(s: State, r: Request, k: (Id, Id))
    requires Inv(s) && k.0 < s.nextWorkspace && (r.Create? || k.0 != r.workspace)
    ensures var s' := Handle(s, r).0;
      (k in s'.members <==> k in s.members) && (k in s.members ==> s'.members[k] == s.members[k])
  {
  }

  /** A role change that passes every check made before the table is written. */
  predicate PermittedRoleChange(s: State, r: Request) {
    && r.UpdateRole?
    && MayManage(s.members, r.workspace, r.actor)
    && (r.workspace, r.target) in s.members
    && var oldRole := s.members[(r.workspace, r.target)];
      && !(s.members[(r.workspace, r.actor)] == Admin && (oldRole == Owner || r.role == Owner))
      && !(oldRole == Owner && r.role != Owner && CountOwners(s.members, r.workspace) == 1)
  }

  /**
   In any state, with or without the invariant: an answer other than `Done` means that nothing
   changed, unless and only unless it answers a permitted change to a different role of a
   member whose user row is missing.
   */
  lemma RefusedChangesExactly(s: State, r: Request)
    requires Handle(s, r).1 != Done
    ensures Handle(s, r).0 != s <==>
      PermittedRoleChange(s, r) && r.target !in s.users && r.role != s.members[(r.workspace, r.target)]
  {
    if PermittedRoleChange(s, r) {
      var k := (r.workspace, r.target);
      assert Handle(s, r).0.members == s.members[k := r.role];
      assert s.members[k := s.members[k]] == s.members;
      assert s.members[k := r.role][k] == r.role;
    }
  }

  /** Members are users, so in a state of the invariant any answer but `Done` means nothing changed. */
  lemma RefusedMeansUnchanged(s: State, r: Request)
    requires Inv(s)
    ensures Handle(s, r).1 != Done ==> Handle(s, r).0 == s
  {
    if Handle(s, r).1 != Done {
      RefusedChangesExactly(s, r);
      assert r.UpdateRole? && (r.workspace, r.target) in s.members ==> r.target in s.users;
    }
  }

  /** A role change that is committed and answered with an error: user 1 is a member without a user row. */
  lemma RefusedButChanged(s: State)
    requires s == State(map[(0, 0) := Owner, (0, 1) := Member], {0}, 1)
    ensures Handle(s, UpdateRole(0, 0, 1, Viewer))
      == (s.(members := map[(0, 0) := Owner, (0, 1) := Viewer]), MemberNotFound)
    ensures Handle(s, UpdateRole(0, 0, 1, Viewer)).0 != s
  {
    assert s.members[(0, 1) := Viewer] == map[(0, 0) := Owner, (0, 1) := Viewer];
    assert s.members[(0, 1)] != Viewer;
  }

  /**
   The last-owner answer is exact: a permitted demotion or removal gets it precisely when
   carrying it out would leave the workspace without an owner.
   */
  lemma LastOwnerExactly(s: State, w: Id, actor: Id, target: Id, role: Role)
    requires Inv(s) && w < s.nextWorkspace && (w, actor) in s.members && s.members[(w, actor)] == Owner
    requires (w, target) in s.members
    ensures UpdateMemberRole(s, w, actor, target, role).1 == LastOwner
      <==> OwnerKeys(s.members[(w, target) := role], w) == {}
    ensures RemoveMember(s, w, actor, target).1 == LastOwner <==> OwnerKeys(s.members - {(w, target)}, w) == {}
  {
    SetRoleOwners(s.members, w, target, role, w);
    DropOwners(s.members, w, target, w);
    OwnersAfterLoss(s.members, w, target, w);
  }
}
