/**
  When each role and member action succeeds, in terms of who holds which roles, and what it then changes
  field by field; and what an edited role does to the access of its holders.
*/
module GuildOutcomes {
  import opened Common
  import opened GuildAccess
  import opened GuildActions
  import opened GuildService

  // ---------- Authority ----------

  /** The default role and the roles assigned to the user. */
  predicate Applies(g: Guild, user: ID, role: ID) {
    user in g.members && role in g.roles && (g.roles[role].isDefault || role in g.members[user].roles)
  }

  /** All roles of the user are within these bits. */
  ghost predicate Bounds(g: Guild, user: ID, bound: Bits) {
    forall r | Applies(g, user, r) :: Within(g.roles[r].permissions, bound)
  }

  /** Every one of these bits is in some role of the user: whatever bounds the roles bounds the bits. */
  ghost predicate Covered(g: Guild, user: ID, bits: Bits) {
    forall bound | Bounds(g, user, bound) :: Within(bits, bound)
  }

  /** The user owns the guild or is granted these permissions by roles. */
  ghost predicate MayUse(g: Guild, user: ID, bits: Bits) {
    user in g.members && (user == g.owner || Covered(g, user, bits))
  }

  /** The user owns the guild or has a role above this position. */
  ghost predicate Above(g: Guild, user: ID, position: int) {
    user in g.members && (user == g.owner || exists r :: Applies(g, user, r) && g.roles[r].position > position)
  }

  predicate AboveAllOf(g: Guild, position: int, target: ID) {
    position > 0 && forall r | r in g.roles && Applies(g, target, r) :: g.roles[r].position < position
  }

  /** The user may act on a member: not the owner, and all of its roles are below one of the user's. */
  ghost predicate AboveMember(g: Guild, user: ID, target: ID) {
    && user in g.members && target in g.members && target != g.owner
    && (user == g.owner || exists r :: Applies(g, user, r) && AboveAllOf(g, g.roles[r].position, target))
  }

  lemma AccessIsMembership(g: Guild, user: ID)
    ensures AccessOf(g, user).Some? <==> user in g.members
    ensures user in g.members ==> (AccessOf(g, user).value.owner <==> user == g.owner)
  {
  }

  lemma HasMeans(g: Guild, user: ID, bits: Bits)
    requires user in g.members
    ensures AccessOf(g, user).value.Has(bits) <==> MayUse(g, user, bits)
  {
    hide Within, BitsOf, TopOf, Covered, Access.Has;
    HasIsWithin(AccessOf(g, user).value, bits);
    if user != g.owner {
      CoveredIsWithin(g, user, bits);
    }
  }

  lemma CoveredIsWithin(g: Guild, user: ID, bits: Bits)
    requires user in g.members
    ensures Covered(g, user, bits) <==> Within(bits, BitsOf(g.roles, Held(g, user)))
  {
    hide Within, BitsOf, Bounds;
    var all := BitsOf(g.roles, Held(g, user));
    if Within(bits, all) {
      forall bound | Bounds(g, user, bound)
        ensures Within(bits, bound)
      {
        BoundsAreAbove(g, user, bound);
        WithinTransitive(bits, all, bound);
      }
    }
    WithinSelf(all);
    BoundsAreAbove(g, user, all);
  }

  lemma BoundsAreAbove(g: Guild, user: ID, bound: Bits)
    requires user in g.members
    ensures Bounds(g, user, bound) <==> Within(BitsOf(g.roles, Held(g, user)), bound)
  {
    hide Within, BitsOf;
    HeldApplies(g, user);
    BitsWithin(g.roles, Held(g, user), bound);
  }

  lemma HeldApplies(g: Guild, user: ID)
    requires user in g.members
    ensures forall r :: r in Held(g, user) <==> Applies(g, user, r)
  {
  }

  lemma WithinTransitive(a: Bits, b: Bits, c: Bits)
    requires Within(a, b) && Within(b, c)
    ensures Within(a, c)
  {
  }

  lemma HasIsWithin(access: Access, bits: Bits)
    ensures access.Has(bits) <==> access.owner || Within(bits, access.permissions)
  {
    hide Within, Access.Has;
    if access.Has(bits) && !access.owner {
      HasThenWithin(access, bits);
    }
    if access.owner || Within(bits, access.permissions) {
      WithinThenHas(access, bits);
    }
  }

  lemma HasThenWithin(access: Access, bits: Bits)
    requires access.Has(bits) && !access.owner
    ensures Within(bits, access.permissions)
  {
  }

  lemma WithinThenHas(access: Access, bits: Bits)
    requires access.owner || Within(bits, access.permissions)
    ensures access.Has(bits)
  {
  }

  lemma OutranksMeans(g: Guild, user: ID, position: int)
    requires WellFormed(g) && user in g.members && position >= 0
    ensures AccessOf(g, user).value.Outranks(position) <==> Above(g, user, position)
  {
    hide BitsOf, TopOf;
    HeldApplies(g, user);
    TopAtMost(g.roles, Held(g, user), position);
  }

  lemma OutranksMemberMeans(g: Guild, user: ID, target: ID)
    requires WellFormed(g) && user in g.members && target in g.members
    ensures OutranksMember(g, AccessOf(g, user).value, target) <==> AboveMember(g, user, target)
  {
    hide BitsOf, TopOf;
    if user != g.owner && target != g.owner {
      var top := TopOf(g.roles, Held(g, target));
      TopNotNegative(g.roles, Held(g, target));
      TopAtMost(g.roles, Held(g, target), top);
      HeldApplies(g, user);
      HeldApplies(g, target);
      TopAtMost(g.roles, Held(g, user), top);
      if AboveMember(g, user, target) {
        var r :| Applies(g, user, r) && AboveAllOf(g, g.roles[r].position, target);
        TopAtMost(g.roles, Held(g, target), g.roles[r].position - 1);
      }
    }
  }

  // ---------- Permissions asked for ----------

  /**
    The user may use every bit in which two permission sets differ: they agree outside whatever bounds
    the user's roles, that is, once it is joined to both.
  */
  ghost predicate MayChange(g: Guild, user: ID, a: Bits, b: Bits) {
    user == g.owner || forall bound | Bounds(g, user, bound) :: Joined(a, bound) == Joined(b, bound)
  }

  /** No bits but the eleven that are defined. */
  predicate Defined(bits: Bits) {
    Within(bits, 0x7ff)
  }

  lemma KnownIsDefined(bits: Bits)
    ensures KnownBits(bits) <==> Defined(bits)
  {
    hide KnownBits, Defined;
    if KnownBits(bits) {
      KnownThenDefined(bits);
    }
    if Defined(bits) {
      DefinedThenKnown(bits);
    }
  }

  lemma KnownThenDefined(bits: Bits)
    requires KnownBits(bits)
    ensures Defined(bits)
  {
  }

  lemma DefinedThenKnown(bits: Bits)
    requires Defined(bits)
    ensures KnownBits(bits)
  {
  }

  lemma ChangeMeans(g: Guild, user: ID, a: Bits, b: Bits)
    requires user in g.members
    ensures AccessOf(g, user).value.Has(Changed(a, b)) <==> MayChange(g, user, a, b)
  {
    hide Within, BitsOf, TopOf, Bounds, Access.Has, Changed, Joined;
    HasMeans(g, user, Changed(a, b));
    forall bound
      ensures Within(Changed(a, b), bound) <==> Joined(a, bound) == Joined(b, bound)
    {
      AgreeOutside(a, b, bound);
    }
  }

  lemma AgreeOutside(a: Bits, b: Bits, bound: Bits)
    ensures Within(Changed(a, b), bound) <==> Joined(a, bound) == Joined(b, bound)
  {
    hide Within, Changed, Joined;
    if Within(Changed(a, b), bound) {
      ChangedInside(a, b, bound);
    }
    if Joined(a, bound) == Joined(b, bound) {
      SameOutside(a, b, bound);
    }
  }

  lemma ChangedInside(a: Bits, b: Bits, bound: Bits)
    requires Within(Changed(a, b), bound)
    ensures Joined(a, bound) == Joined(b, bound)
  {
    XorInside(a, b, bound);
  }

  lemma XorInside(a: Bits, b: Bits, bound: Bits)
    requires (a ^ b) & bound == a ^ b
    ensures a | bound == b | bound
  {
  }

  lemma SameOutside(a: Bits, b: Bits, bound: Bits)
    requires Joined(a, bound) == Joined(b, bound)
    ensures Within(Changed(a, b), bound)
  {
  }

  // ---------- Roles ----------

  /** One role was stored; every other role and all members stay as they were. */
  ghost predicate RoleStored(g: Guild, g': Guild, id: ID, role: Role) {
    && g'.owner == g.owner && g'.members == g.members
    && id in g'.roles && g'.roles[id] == role
    && forall r | r != id :: (r in g'.roles <==> r in g.roles) && (r in g.roles ==> g'.roles[r] == g.roles[r])
  }

  /** One more than the highest position in the guild. */
  ghost predicate OnTop(g: Guild, position: int) {
    && (forall r | r in g.roles :: g.roles[r].position < position)
    && (if g.roles == map[] then position == 1 else exists r :: r in g.roles && g.roles[r].position + 1 == position)
  }

  lemma {:induction false} TopIsSomeones(roles: map<ID, Role>, ids: set<ID>)
    requires ids <= roles.Keys && ids != {} && forall r | r in ids :: roles[r].position >= 0
    ensures exists r :: r in ids && roles[r].position == TopOf(roles, ids)
    decreases ids
  {
    var r :| r in ids && TopOf(roles, ids) == (
      var rest := TopOf(roles, ids - {r});
      if roles[r].position > rest then roles[r].position else rest);
    if ids - {r} == {} {
      NoRoles(roles);
      assert roles[r].position == TopOf(roles, ids);
    } else {
      TopIsSomeones(roles, ids - {r});
      var k :| k in ids - {r} && roles[k].position == TopOf(roles, ids - {r});
      assert k in ids && r in ids;
    }
  }

  lemma TopIsOnTop(g: Guild)
    requires WellFormed(g)
    ensures OnTop(g, TopOf(g.roles, g.roles.Keys) + 1)
  {
    hide TopOf;
    TopNotNegative(g.roles, g.roles.Keys);
    TopAtMost(g.roles, g.roles.Keys, TopOf(g.roles, g.roles.Keys));
    if g.roles == map[] {
      NoRoles(g.roles);
      assert g.roles.Keys == {};
    } else {
      TopIsSomeones(g.roles, g.roles.Keys);
    }
  }

  /**
    A role is created exactly by who may manage roles, may use all its permissions and, unless the owner,
    is above position 1; it is stored as asked, the owner's on top and anyone else's at position 1.
  */
  lemma CreateRoleOutcome(g: Guild, actor: ID, action: Action)
    requires WellFormed(g) && action.CreateRole? && action.id !in g.roles
    ensures var r := Act(g, actor, action);
            var manager := MayUse(g, actor, 0x20);
            && (r.Ok? <==> manager && Defined(action.permissions) && MayUse(g, actor, action.permissions)
                           && (actor == g.owner || Above(g, actor, 1)))
            && (r == Err(NotFound) <==> actor !in g.members)
            && (r == Err(Invalid) <==> manager && !Defined(action.permissions))
            && (r.Ok? ==> exists role ::
                  && RoleStored(g, r.value, action.id, role) && role.name == action.name && role.color == action.color
                  && role.permissions == action.permissions && !role.managed && !role.isDefault
                  && if actor == g.owner then OnTop(g, role.position) else role.position == 1)
  {
    hide Within, BitsOf, TopOf, MayUse, Above, Access.Has, KnownBits, Defined, OnTop;
    AccessIsMembership(g, actor);
    KnownIsDefined(action.permissions);
    TopIsOnTop(g);
    if actor in g.members {
      HasMeans(g, actor, 0x20);
      HasMeans(g, actor, action.permissions);
      OutranksMeans(g, actor, 1);
    } else {
      OnlyMembersMay(g, actor);
    }
    if Act(g, actor, action).Ok? {
      assert RoleStored(g, Act(g, actor, action).value, action.id, CreatedRole(g, actor, action).value);
    }
  }

  /** The edit is of nothing the default role may not have edited. */
  predicate FieldsFit(role: Role, action: Action)
    requires action.UpdateRole?
  {
    role.isDefault ==> action.newName.None? && action.newColor.None? && action.newPosition.None?
  }

  ghost predicate PermissionsFit(g: Guild, actor: ID, role: Role, action: Action)
    requires action.UpdateRole?
  {
    action.newPermissions.Some? ==>
      Defined(action.newPermissions.value) && MayChange(g, actor, action.newPermissions.value, role.permissions)
  }

  predicate AsksForSomething(action: Action)
    requires action.UpdateRole?
  {
    action.newName.Some? || action.newColor.Some? || action.newPermissions.Some? || action.newPosition.Some?
  }

  /** Who may manage roles and is above this one, which is there; the default role is below everybody. */
  ghost predicate MayEdit(g: Guild, actor: ID, id: ID) {
    MayUse(g, actor, 0x20) && id in g.roles && (g.roles[id].isDefault || Above(g, actor, g.roles[id].position))
  }

  /**
    A role is updated exactly by who may edit it, within its own permissions and rank. It then has every
    field as asked for, or as before where nothing was asked.
  */
  lemma UpdateRoleOutcome(g: Guild, actor: ID, action: Action)
    requires WellFormed(g) && action.UpdateRole?
    ensures var r := Act(g, actor, action); var id := action.role;
            && (r.Ok? <==>
                  && AsksForSomething(action) && MayEdit(g, actor, id)
                  && FieldsFit(g.roles[id], action) && PermissionsFit(g, actor, g.roles[id], action)
                  && (action.newPosition.Some? ==> action.newPosition.value >= 1 && Above(g, actor, action.newPosition.value)))
            && (r == Err(NotFound) <==>
                  AsksForSomething(action) && (actor !in g.members || (MayUse(g, actor, 0x20) && id !in g.roles)))
            && (r == Err(Invalid) <==>
                  || !AsksForSomething(action)
                  || (MayEdit(g, actor, id)
                      && (|| !FieldsFit(g.roles[id], action)
                          || (action.newPermissions.Some? && !Defined(action.newPermissions.value))
                          || (PermissionsFit(g, actor, g.roles[id], action)
                              && action.newPosition.Some? && action.newPosition.value < 1))))
            && (r.Ok? ==> exists role ::
                  && RoleStored(g, r.value, id, role)
                  && role.name == (if action.newName.Some? then action.newName.value else g.roles[id].name)
                  && role.color == (if action.newColor.Some? then action.newColor.value else g.roles[id].color)
                  && role.permissions ==
                     (if action.newPermissions.Some? then action.newPermissions.value else g.roles[id].permissions)
                  && role.position == (if action.newPosition.Some? then action.newPosition.value else g.roles[id].position)
                  && role.managed == g.roles[id].managed && role.isDefault == g.roles[id].isDefault)
  {
    hide Within, BitsOf, TopOf, MayUse, Above, MayChange, Access.Has, Access.Outranks, KnownBits, Changed, Defined;
    AccessIsMembership(g, actor);
    if actor in g.members {
      HasMeans(g, actor, 0x20);
      if action.role in g.roles {
        var role := g.roles[action.role];
        OutranksMeans(g, actor, role.position);
        if action.newPermissions.Some? {
          KnownIsDefined(action.newPermissions.value);
          ChangeMeans(g, actor, action.newPermissions.value, role.permissions);
        }
        if action.newPosition.Some? && action.newPosition.value >= 1 {
          OutranksMeans(g, actor, action.newPosition.value);
        }
      }
    } else {
      OnlyMembersMay(g, actor);
    }
    if Act(g, actor, action).Ok? {
      assert RoleStored(g, Act(g, actor, action).value, action.role, UpdatedRole(g, actor, action).value);
    }
  }

  lemma OnlyMembersMay(g: Guild, user: ID)
    requires user !in g.members
    ensures forall bits :: !MayUse(g, user, bits)
  {
  }

  /** Any role but a managed one is deleted by who may manage roles and is above it, with its assignments only. */
  lemma DeleteRoleOutcome(g: Guild, actor: ID, id: ID, other: ID, user: ID)
    requires WellFormed(g)
    ensures var r := Act(g, actor, DeleteRole(id));
            && (r.Ok? <==> MayUse(g, actor, 0x20) && id in g.roles && !g.roles[id].managed && Above(g, actor, g.roles[id].position))
            && (r == Err(NotFound) <==> actor !in g.members || (MayUse(g, actor, 0x20) && id !in g.roles))
            && r != Err(Invalid)
            && (r.Ok? ==>
                  && r.value.owner == g.owner && id !in r.value.roles
                  && (other != id ==> (other in r.value.roles <==> other in g.roles))
                  && (other != id && other in g.roles ==> r.value.roles[other] == g.roles[other])
                  && (user in r.value.members <==> user in g.members)
                  && (user in g.members ==>
                        && r.value.members[user].nickname == g.members[user].nickname
                        && (other in r.value.members[user].roles <==> other != id && other in g.members[user].roles)))
  {
    hide Within, BitsOf, TopOf, MayUse, Above, Access.Has, Access.Outranks;
    AccessIsMembership(g, actor);
    if actor in g.members {
      HasMeans(g, actor, 0x20);
      if id in g.roles {
        OutranksMeans(g, actor, g.roles[id].position);
      }
    } else {
      OnlyMembersMay(g, actor);
    }
  }

  // ---------- Members ----------

  /** One member was stored; every other member and all roles stay as they were. */
  ghost predicate MemberStored(g: Guild, g': Guild, user: ID, member: Member) {
    && g'.owner == g.owner && g'.roles == g.roles
    && user in g'.members && g'.members[user] == member
    && forall u | u != user :: (u in g'.members <==> u in g.members) && (u in g.members ==> g'.members[u] == g.members[u])
  }

  /** One member is gone; every other member and all roles stay as they were. */
  ghost predicate MemberGone(g: Guild, g': Guild, user: ID) {
    && g'.owner == g.owner && g'.roles == g.roles && user !in g'.members
    && forall u | u != user :: (u in g'.members <==> u in g.members) && (u in g.members ==> g'.members[u] == g.members[u])
  }

  /** Requested roles are there and not managed. */
  predicate Assignable(g: Guild, requested: seq<ID>) {
    forall r | r in requested :: r in g.roles && !g.roles[r].managed
  }

  /** The user is above every role that is added or removed. */
  ghost predicate MayReassign(g: Guild, user: ID, current: set<ID>, requested: seq<ID>) {
    forall r | r in g.roles && (r in current) != (r in requested) :: Above(g, user, g.roles[r].position)
  }

  ghost predicate MayRename(g: Guild, actor: ID, user: ID) {
    actor == user || (MayUse(g, actor, 0x40) && AboveMember(g, actor, user))
  }

  ghost predicate MayManageRolesOf(g: Guild, actor: ID, user: ID) {
    MayUse(g, actor, 0x20) && (actor == user || AboveMember(g, actor, user))
  }

  /**
    A member's nickname and roles change exactly if the actor may change each; then the nickname is the one
    given, the assigned roles are exactly those requested, and what was not given stays.
  */
  lemma UpdateMemberOutcome(g: Guild, actor: ID, action: Action)
    requires WellFormed(g) && action.UpdateMember?
    ensures var r := Act(g, actor, action); var user := action.user;
            var given := action.nickname.Some? || action.roleIDs.Some?;
            var present := actor in g.members && user in g.members;
            && (r.Ok? <==>
                  && given && present
                  && (action.nickname.Some? ==> MayRename(g, actor, user))
                  && (action.roleIDs.Some? ==>
                        && MayManageRolesOf(g, actor, user) && Assignable(g, action.roleIDs.value)
                        && MayReassign(g, actor, g.members[user].roles, action.roleIDs.value)))
            && (r == Err(NotFound) <==> given && !present)
            && (r == Err(Invalid) <==>
                  || !given
                  || (present && (action.nickname.Some? ==> MayRename(g, actor, user))
                      && action.roleIDs.Some? && MayManageRolesOf(g, actor, user) && !Assignable(g, action.roleIDs.value)))
            && (r.Ok? ==> exists member ::
                  && MemberStored(g, r.value, user, member)
                  && member.nickname == (if action.nickname.Some? then action.nickname.value else g.members[user].nickname)
                  && forall role :: role in member.roles <==>
                       if action.roleIDs.Some? then role in action.roleIDs.value else role in g.members[user].roles)
  {
    hide Within, BitsOf, TopOf, MayUse, Above, AboveMember, Access.Has, Access.Outranks, OutranksMember, AssignedRoles, AccessOf;
    var user := action.user;
    AccessIsMembership(g, actor);
    if actor in g.members && user in g.members {
      HasMeans(g, actor, 0x20);
      HasMeans(g, actor, 0x40);
      OutranksMemberMeans(g, actor, user);
      if action.roleIDs.Some? {
        AssignmentMeans(g, actor, g.members[user].roles, action.roleIDs.value);
      }
    }
    hide MayReassign, Assignable;
    if Act(g, actor, action).Ok? {
      assert MemberStored(g, Act(g, actor, action).value, user, UpdatedMember(g, actor, action).value);
    }
  }

  lemma AssignmentMeans(g: Guild, actor: ID, current: set<ID>, requested: seq<ID>)
    requires WellFormed(g) && actor in g.members && current <= g.roles.Keys
    ensures var r := AssignedRoles(g.roles, AccessOf(g, actor).value, current, requested);
            && (r.Ok? <==> Assignable(g, requested) && MayReassign(g, actor, current, requested))
            && (r == Err(Invalid) <==> !Assignable(g, requested)) && r != Err(NotFound)
            && (r.Ok? ==> forall role :: role in r.value <==> role in requested)
  {
    AccessIsMembership(g, actor);
    hide BitsOf, TopOf, Above, Access.Has, Access.Outranks, AccessOf;
    forall r | r in g.roles
      ensures AccessOf(g, actor).value.Outranks(g.roles[r].position) <==> Above(g, actor, g.roles[r].position)
    {
      OutranksMeans(g, actor, g.roles[r].position);
    }
    var next := set r | r in requested;
    if Assignable(g, requested) && MayReassign(g, actor, current, requested) {
      forall r | r in next - current || r in current - next
        ensures Above(g, actor, g.roles[r].position)
      {
        assert (r in current) != (r in requested);
      }
    }
    if Assignable(g, requested) && !MayReassign(g, actor, current, requested) {
      var r :| r in g.roles && (r in current) != (r in requested) && !Above(g, actor, g.roles[r].position);
      assert r in next - current || r in current - next;
    }
  }

  /** A member is removed exactly by another one who may manage members and is above it. */
  lemma RemoveMemberOutcome(g: Guild, actor: ID, user: ID)
    requires WellFormed(g)
    ensures var r := Act(g, actor, RemoveMember(user));
            && (r.Ok? <==> actor != user && MayUse(g, actor, 0x40) && AboveMember(g, actor, user))
            && (r == Err(NotFound) <==> actor !in g.members || (MayUse(g, actor, 0x40) && actor != user && user !in g.members))
            && r != Err(Invalid)
            && (r.Ok? ==> MemberGone(g, r.value, user))
  {
    hide Within, BitsOf, TopOf, MayUse, Access.Has, Access.Outranks, OutranksMember;
    AccessIsMembership(g, actor);
    if actor in g.members {
      HasMeans(g, actor, 0x40);
      if user in g.members {
        OutranksMemberMeans(g, actor, user);
      }
    } else {
      OnlyMembersMay(g, actor);
    }
  }

  /** Every member but the owner can leave; whoever accepts an invite is a member with no roles, or stays as they are. */
  lemma LeaveAndJoinOutcome(g: Guild, actor: ID)
    requires WellFormed(g)
    ensures var r := Act(g, actor, LeaveGuild);
            && (r.Ok? <==> actor in g.members && actor != g.owner)
            && (r == Err(NotFound) <==> actor !in g.members) && r != Err(Invalid)
            && (r.Ok? ==> MemberGone(g, r.value, actor))
    ensures var r := Act(g, actor, AcceptInvite);
            && r.Ok?
            && if actor in g.members then r.value == g else MemberStored(g, r.value, actor, Member(None, {}))
  {
  }

  // ---------- What an edit does to the holders ----------

  lemma SameRolesSameAccess(roles: map<ID, Role>, roles': map<ID, Role>, ids: set<ID>)
    requires ids <= roles.Keys && ids <= roles'.Keys && forall r | r in ids :: roles'[r] == roles[r]
    ensures BitsOf(roles', ids) == BitsOf(roles, ids) && TopOf(roles', ids) == TopOf(roles, ids)
  {
    hide Within, Joined, BitsOf, TopOf;
    forall u
      ensures Within(BitsOf(roles, ids), u) <==> forall r | r in ids :: Within(roles'[r].permissions, u)
    {
      BitsWithin(roles, ids, u);
    }
    SameBits(roles', ids, BitsOf(roles, ids));
    var top, top' := TopOf(roles, ids), TopOf(roles', ids);
    TopNotNegative(roles, ids);
    TopNotNegative(roles', ids);
    TopAtMost(roles, ids, top);
    TopAtMost(roles', ids, top);
    TopAtMost(roles, ids, top');
    TopAtMost(roles', ids, top');
  }

  /**
    After an update the access of whom the role applies to is what their other roles give, joined with its
    new permissions and raised to its new position; everybody else's is what it was.
  */
  lemma UpdateReachesHolders(g: Guild, actor: ID, action: Action, user: ID)
    requires WellFormed(g) && action.UpdateRole? && Act(g, actor, action).Ok?
    requires user in g.members && user != g.owner
    ensures var g' := Act(g, actor, action).value; var id := action.role;
            var others := Held(g, user) - {id};
            && user in g'.members && id in g'.roles
            && (!Applies(g, user, id) ==> AccessOf(g', user) == AccessOf(g, user))
            && (Applies(g, user, id) ==>
                  AccessOf(g', user) == Some(Access(
                    false, Joined(BitsOf(g.roles, others), g'.roles[id].permissions),
                    if g'.roles[id].position > TopOf(g.roles, others) then g'.roles[id].position else TopOf(g.roles, others))))
  {
    hide Within, Joined, BitsOf, TopOf, Access.Has, Access.Outranks, KnownBits, Changed;
    UpdateRoleOutcome(g, actor, action);
    hide MayEdit, FieldsFit, PermissionsFit, MayUse, Above;
    var g' := Act(g, actor, action).value;
    var id := action.role;
    assert Held(g', user) == Held(g, user);
    var others := Held(g, user) - {id};
    SameRolesSameAccess(g.roles, g'.roles, others);
    if Applies(g, user, id) {
      assert Held(g', user) == others + {id};
      BitsAdd(g'.roles, others, id);
      TopAdd(g'.roles, others, id);
    } else {
      assert Held(g, user) == others;
    }
  }
}
