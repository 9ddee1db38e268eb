/**
  What a coalition of members that are not the owner can never do, whatever sequence of
  role and member actions it takes: the role hierarchy and the permission ceiling.
*/
module GuildHierarchy {
  import opened Common
  import opened GuildAccess
  import opened GuildActions

  /** The roles the coalition must not touch: those at position t or above, bar the default role. */
  function HighRoles(g: Guild, t: int): map<ID, Role> {
    map r | r in g.roles && g.roles[r].position >= t && !g.roles[r].isDefault :: g.roles[r]
  }

  /** Which of them a user holds. */
  function HighHeld(g: Guild, user: ID, t: int): set<ID> {
    set r | r in g.roles && user in g.members && r in g.members[user].roles && g.roles[r].position >= t
  }

  /** The members the coalition must not touch: the owner and those whose top is at least t. */
  predicate Protected(g: Guild, user: ID, t: int) {
    user in g.members && (user == g.owner || t == 0 || HighHeld(g, user, t) != {})
  }

  /** No member of the coalition owns the guild or holds a role above t. */
  ghost predicate Capped(g: Guild, coalition: set<ID>, t: int) {
    && g.owner !in coalition
    && forall u, r | u in coalition && u in g.members && r in g.members[u].roles && r in g.roles :: g.roles[r].position <= t
  }

  /** Every role below t, and every role that applies to a coalition member, is within the ceiling. */
  ghost predicate Ceiled(g: Guild, coalition: set<ID>, t: int, ceiling: Bits) {
    && (forall r | r in g.roles && (g.roles[r].isDefault || g.roles[r].position < t) :: Within(g.roles[r].permissions, ceiling))
    && forall u, r | u in coalition && u in g.members && r in g.members[u].roles && r in g.roles ::
         Within(g.roles[r].permissions, ceiling)
  }

  /** Everything at or above t is as it was in g0. */
  ghost predicate Untouched(g0: Guild, g: Guild, coalition: set<ID>, t: int) {
    && g.owner == g0.owner
    && HighRoles(g, t) == HighRoles(g0, t)
    && (forall u | u !in coalition :: HighHeld(g, u, t) == HighHeld(g0, u, t))
    && (forall u | u !in coalition && Protected(g0, u, t) :: u in g.members && g.members[u].nickname == g0.members[u].nickname)
  }

  ghost predicate Safe(g0: Guild, g: Guild, coalition: set<ID>, t: int, ceiling: Bits) {
    WellFormed(g) && Capped(g, coalition, t) && Ceiled(g, coalition, t, ceiling) && Untouched(g0, g, coalition, t)
  }

  // ---------- The acting member ----------

  /** What an actor of the coalition can muster: no more than t and the ceiling. */
  lemma ActorIsLimited(g: Guild, coalition: set<ID>, t: int, ceiling: Bits, actor: ID)
    requires WellFormed(g) && Capped(g, coalition, t) && Ceiled(g, coalition, t, ceiling) && t >= 0
    requires actor in coalition && actor in g.members
    ensures var access := AccessOf(g, actor).value;
            !access.owner && access.top <= t && Within(access.permissions, ceiling)
  {
    hide Within, BitsOf, TopOf;
    TopAtMost(g.roles, Held(g, actor), t);
    BitsWithin(g.roles, Held(g, actor), ceiling);
  }

  /** A member outranked by the coalition holds nothing at t or above. */
  lemma OutrankedIsLow(g: Guild, access: Access, t: int, target: ID)
    requires WellFormed(g) && target in g.members && !access.owner && access.top <= t && t >= 0
    requires OutranksMember(g, access, target)
    ensures !Protected(g, target, t) && HighHeld(g, target, t) == {}
  {
    hide BitsOf, TopOf;
    var top := TopOf(g.roles, Held(g, target));
    TopNotNegative(g.roles, Held(g, target));
    TopAtMost(g.roles, Held(g, target), top);
    assert HighHeld(g, target, t) <= Held(g, target);
  }

  /** A grant held by someone within the ceiling is within it, and so is what it changes a role to. */
  lemma GrantWithin(access: Access, granted: Bits, ceiling: Bits)
    requires !access.owner && Within(access.permissions, ceiling) && access.Has(granted)
    ensures Within(granted, ceiling)
  {
  }

  lemma ChangeWithin(access: Access, a: Bits, b: Bits, ceiling: Bits)
    requires !access.owner && Within(access.permissions, ceiling) && access.Has(Changed(a, b)) && Within(b, ceiling)
    ensures Within(a, ceiling)
  {
    GrantWithin(access, Changed(a, b), ceiling);
    XorWithin(a, b, ceiling);
  }

  lemma XorWithin(a: Bits, b: Bits, u: Bits)
    requires Within(Changed(a, b), u) && Within(b, u)
    ensures Within(a, u)
  {
  }

  // ---------- What one change to the tables keeps ----------

  /** A role the coalition may touch. */
  predicate Low(role: Role, t: int) {
    role.isDefault || role.position < t
  }

  lemma SameAboveIsUntouched(g0: Guild, g: Guild, g': Guild, coalition: set<ID>, t: int)
    requires Untouched(g0, g, coalition, t) && g'.owner == g.owner && HighRoles(g', t) == HighRoles(g, t)
    requires forall u | u !in coalition :: HighHeld(g', u, t) == HighHeld(g, u, t)
    requires forall u | u !in coalition && u in g.members && Protected(g0, u, t) ::
      u in g'.members && g'.members[u].nickname == g.members[u].nickname
    ensures Untouched(g0, g', coalition, t)
  {
    hide HighRoles, HighHeld, Protected;
  }

  lemma LowRoleHidden(g: Guild, t: int, id: ID, role: Role)
    requires WellFormed(g) && Low(role, t)
    requires id in g.roles ==> Low(g.roles[id], t) && g.roles[id].isDefault == role.isDefault
    ensures var g' := g.(roles := g.roles[id := role]);
            HighRoles(g', t) == HighRoles(g, t) && forall u :: HighHeld(g', u, t) == HighHeld(g, u, t)
  {
    var g' := g.(roles := g.roles[id := role]);
    assert HighRoles(g', t) == HighRoles(g, t);
    forall u
      ensures HighHeld(g', u, t) == HighHeld(g, u, t)
    {
      assert u in g.members && id in g.members[u].roles ==> id in g.roles && !g.roles[id].isDefault;
    }
  }

  lemma LowRoleFits(g: Guild, coalition: set<ID>, t: int, ceiling: Bits, id: ID, role: Role)
    requires WellFormed(g) && Capped(g, coalition, t) && Ceiled(g, coalition, t, ceiling)
    requires Low(role, t) && Within(role.permissions, ceiling) && role.position >= 0
    requires role.isDefault ==> role.managed && role.position == 0
    requires id in g.roles ==> Low(g.roles[id], t) && g.roles[id].isDefault == role.isDefault
    ensures var g' := g.(roles := g.roles[id := role]);
            WellFormed(g') && Capped(g', coalition, t) && Ceiled(g', coalition, t, ceiling)
  {
    hide Within;
  }

  /** Storing a low role where there was none or another low one. */
  lemma LowRoleStored(g0: Guild, g: Guild, coalition: set<ID>, t: int, ceiling: Bits, id: ID, role: Role)
    requires Safe(g0, g, coalition, t, ceiling)
    requires Low(role, t) && Within(role.permissions, ceiling) && role.position >= 0
    requires role.isDefault ==> role.managed && role.position == 0
    requires id in g.roles ==> Low(g.roles[id], t) && g.roles[id].isDefault == role.isDefault
    ensures Safe(g0, g.(roles := g.roles[id := role]), coalition, t, ceiling)
  {
    hide WellFormed, Capped, Ceiled, Untouched, Low, Within, HighRoles, HighHeld, Protected;
    var g' := g.(roles := g.roles[id := role]);
    LowRoleHidden(g, t, id, role);
    LowRoleFits(g, coalition, t, ceiling, id, role);
    SameAboveIsUntouched(g0, g, g', coalition, t);
  }

  /** Deleting a low role, with its assignments. */
  lemma LowRoleDeleted(g0: Guild, g: Guild, coalition: set<ID>, t: int, ceiling: Bits, id: ID)
    requires Safe(g0, g, coalition, t, ceiling)
    requires id in g.roles && g.roles[id].position < t
    ensures Safe(g0, WithoutRole(g, id), coalition, t, ceiling)
  {
    hide Within, Untouched;
    var g' := WithoutRole(g, id);
    assert HighRoles(g', t) == HighRoles(g, t);
    forall u
      ensures HighHeld(g', u, t) == HighHeld(g, u, t)
    {
    }
    SameAboveIsUntouched(g0, g, g', coalition, t);
  }

  /** Roles a coalition member may hold. */
  ghost predicate Allowed(g: Guild, ids: set<ID>, t: int, ceiling: Bits) {
    forall r | r in ids ::
      r in g.roles && !g.roles[r].isDefault && g.roles[r].position <= t && Within(g.roles[r].permissions, ceiling)
  }

  /** Storing a member row: of the coalition, or of somebody unprotected with no high role before or after. */
  lemma MemberStored(g0: Guild, g: Guild, coalition: set<ID>, t: int, ceiling: Bits, user: ID, member: Member)
    requires Safe(g0, g, coalition, t, ceiling) && Allowed(g, member.roles, t, ceiling)
    requires user !in coalition ==> user in g.members && !Protected(g, user, t)
    requires user !in coalition ==> forall r | r in member.roles :: g.roles[r].position < t
    ensures Safe(g0, g.(members := g.members[user := member]), coalition, t, ceiling)
  {
    hide Within, Untouched;
    var g' := g.(members := g.members[user := member]);
    assert HighRoles(g', t) == HighRoles(g, t);
    forall u | u !in coalition
      ensures HighHeld(g', u, t) == HighHeld(g, u, t)
    {
      if u == user {
        assert HighHeld(g, u, t) == {} == HighHeld(g', u, t);
      }
    }
    if user !in coalition {
      StillProtected(g0, g, coalition, t, user);
    }
    SameAboveIsUntouched(g0, g, g', coalition, t);
  }

  lemma MemberDeleted(g0: Guild, g: Guild, coalition: set<ID>, t: int, ceiling: Bits, user: ID)
    requires Safe(g0, g, coalition, t, ceiling) && user != g.owner
    requires user !in coalition ==> !Protected(g, user, t) && user in g.members
    ensures Safe(g0, g.(members := g.members - {user}), coalition, t, ceiling)
  {
    hide Within, Untouched;
    var g' := g.(members := g.members - {user});
    assert HighRoles(g', t) == HighRoles(g, t);
    forall u | u !in coalition
      ensures HighHeld(g', u, t) == HighHeld(g, u, t)
    {
      if u == user {
        assert HighHeld(g, u, t) == {} == HighHeld(g', u, t);
      }
    }
    if user !in coalition {
      StillProtected(g0, g, coalition, t, user);
    }
    SameAboveIsUntouched(g0, g, g', coalition, t);
  }

  /** Nobody outside the coalition stops being protected. */
  lemma StillProtected(g0: Guild, g: Guild, coalition: set<ID>, t: int, user: ID)
    requires Untouched(g0, g, coalition, t) && user !in coalition
    ensures Protected(g0, user, t) ==> Protected(g, user, t)
  {
  }

  // ---------- One action ----------

  lemma StepSafe(g0: Guild, g: Guild, coalition: set<ID>, t: int, ceiling: Bits, step: (ID, Action))
    requires Safe(g0, g, coalition, t, ceiling) && Enabled(g, step, coalition) && t >= 0
    ensures Safe(g0, Effect(g, step), coalition, t, ceiling)
  {
    hide Within, BitsOf, TopOf, Untouched, KnownBits;
    var (actor, action) := step;
    if Act(g, actor, action).Ok? {
      if action.AcceptInvite? {
        if actor !in g.members {
          MemberStored(g0, g, coalition, t, ceiling, actor, Member(None, {}));
        }
      } else {
        assert actor in g.members;
        ActorIsLimited(g, coalition, t, ceiling, actor);
        match action
        case CreateRole(id, _, _, _) =>
          CreateIsSafe(g0, g, coalition, t, ceiling, actor, action);
        case UpdateRole(id, _, _, _, _) =>
          UpdateIsSafe(g0, g, coalition, t, ceiling, actor, action);
        case DeleteRole(id) =>
          LowRoleDeleted(g0, g, coalition, t, ceiling, id);
        case UpdateMember(user, _, _) =>
          MemberUpdateIsSafe(g0, g, coalition, t, ceiling, actor, action);
        case RemoveMember(user) =>
          OutrankedIsLow(g, AccessOf(g, actor).value, t, user);
          MemberDeleted(g0, g, coalition, t, ceiling, user);
        case LeaveGuild =>
          MemberDeleted(g0, g, coalition, t, ceiling, actor);
        case AcceptInvite =>
      }
    }
  }

  lemma CreateIsSafe(g0: Guild, g: Guild, coalition: set<ID>, t: int, ceiling: Bits, actor: ID, action: Action)
    requires Safe(g0, g, coalition, t, ceiling) && t >= 0
    requires actor in coalition && action.CreateRole? && action.id !in g.roles
    requires Act(g, actor, action).Ok?
    ensures Safe(g0, Act(g, actor, action).value, coalition, t, ceiling)
  {
    hide Within, BitsOf, TopOf, Untouched, KnownBits;
    ActorIsLimited(g, coalition, t, ceiling, actor);
    GrantWithin(AccessOf(g, actor).value, action.permissions, ceiling);
    LowRoleStored(g0, g, coalition, t, ceiling, action.id, CreatedRole(g, actor, action).value);
  }

  lemma UpdateIsSafe(g0: Guild, g: Guild, coalition: set<ID>, t: int, ceiling: Bits, actor: ID, action: Action)
    requires Safe(g0, g, coalition, t, ceiling) && t >= 0
    requires actor in coalition && action.UpdateRole?
    requires Act(g, actor, action).Ok?
    ensures Safe(g0, Act(g, actor, action).value, coalition, t, ceiling)
  {
    hide Within, BitsOf, TopOf, Untouched, KnownBits;
    ActorIsLimited(g, coalition, t, ceiling, actor);
    var role := g.roles[action.role];
    if action.newPermissions.Some? {
      ChangeWithin(AccessOf(g, actor).value, action.newPermissions.value, role.permissions, ceiling);
    }
    LowRoleStored(g0, g, coalition, t, ceiling, action.role, UpdatedRole(g, actor, action).value);
  }

  lemma MemberUpdateIsSafe(g0: Guild, g: Guild, coalition: set<ID>, t: int, ceiling: Bits, actor: ID, action: Action)
    requires Safe(g0, g, coalition, t, ceiling) && t >= 0
    requires actor in coalition && action.UpdateMember?
    requires Act(g, actor, action).Ok?
    ensures Safe(g0, Act(g, actor, action).value, coalition, t, ceiling)
  {
    hide Within, BitsOf, TopOf, Untouched, HighRoles;
    ActorIsLimited(g, coalition, t, ceiling, actor);
    var access := AccessOf(g, actor).value;
    var user := action.user;
    if actor != user {
      OutrankedIsLow(g, access, t, user);
    }
    var member := UpdatedMember(g, actor, action).value;
    var current := g.members[user].roles;
    forall r | r in member.roles
      ensures r in g.roles && !g.roles[r].isDefault
      ensures r !in current ==> g.roles[r].position < t && Within(g.roles[r].permissions, ceiling)
    {
      if r !in current {
        assert r in member.roles - current;
      }
    }
    if user !in coalition {
      assert forall r | r in current && g.roles[r].position >= t :: r in HighHeld(g, user, t);
    }
    MemberStored(g0, g, coalition, t, ceiling, user, member);
  }

  // ---------- Whole runs ----------

  lemma {:induction false} RunSafe(
    g0: Guild, g: Guild, coalition: set<ID>, t: int, ceiling: Bits, steps: seq<(ID, Action)>)
    requires Safe(g0, g, coalition, t, ceiling) && t >= 0 && Possible(g, steps, coalition)
    ensures Safe(g0, Run(g, steps, coalition), coalition, t, ceiling)
    decreases |steps|
  {
    hide Safe;
    if steps != [] {
      StepSafe(g0, g, coalition, t, ceiling, steps[0]);
      RunSafe(g0, Effect(g, steps[0]), coalition, t, ceiling, steps[1..]);
    }
  }

  /** No coalition member owns the guild or tops t. */
  ghost predicate BelowTop(g: Guild, coalition: set<ID>, t: int) {
    forall u | u in coalition && u in g.members :: !AccessOf(g, u).value.owner && AccessOf(g, u).value.top <= t
  }

  /** Every role below t and every coalition member's access is within the ceiling. */
  ghost predicate UnderCeiling(g: Guild, coalition: set<ID>, t: int, ceiling: Bits) {
    && (forall r | r in g.roles && Low(g.roles[r], t) :: Within(g.roles[r].permissions, ceiling))
    && forall u | u in coalition && u in g.members :: Within(AccessOf(g, u).value.permissions, ceiling)
  }

  lemma CappedIffBelowTop(g: Guild, coalition: set<ID>, t: int)
    requires WellFormed(g) && t >= 0 && g.owner !in coalition
    ensures Capped(g, coalition, t) <==> BelowTop(g, coalition, t)
  {
    hide BitsOf, TopOf;
    forall u | u in coalition && u in g.members
      ensures AccessOf(g, u).value.top <= t
         <==> forall r | r in g.members[u].roles && r in g.roles :: g.roles[r].position <= t
    {
      TopAtMost(g.roles, Held(g, u), t);
      assert forall r | r in g.members[u].roles && r in g.roles :: r in Held(g, u);
    }
  }

  lemma CeiledIffUnderCeiling(g: Guild, coalition: set<ID>, t: int, ceiling: Bits)
    requires WellFormed(g) && g.owner !in coalition
    ensures Ceiled(g, coalition, t, ceiling) <==> UnderCeiling(g, coalition, t, ceiling)
  {
    hide BitsOf, TopOf, Within;
    forall u | u in coalition && u in g.members
      ensures Within(AccessOf(g, u).value.permissions, ceiling)
         <==> forall r | r in Held(g, u) :: Within(g.roles[r].permissions, ceiling)
    {
      BitsWithin(g.roles, Held(g, u), ceiling);
    }
    if UnderCeiling(g, coalition, t, ceiling) {
      assert forall u, r | u in coalition && u in g.members && r in g.members[u].roles && r in g.roles :: r in Held(g, u);
    }
  }

  /** Protected members are the owner and those whose top is at least t. */
  lemma ProtectedIffHigh(g: Guild, user: ID, t: int)
    requires WellFormed(g) && user in g.members && t >= 0
    ensures Protected(g, user, t) <==> AccessOf(g, user).value.owner || AccessOf(g, user).value.top >= t
  {
    hide BitsOf, TopOf;
    TopNotNegative(g.roles, Held(g, user));
    if t > 0 {
      TopAtMost(g.roles, Held(g, user), t - 1);
      if HighHeld(g, user, t) != {} {
        var r :| r in HighHeld(g, user, t);
        assert r in Held(g, user);
      }
      assert forall r | r in Held(g, user) && g.roles[r].position >= t :: r in HighHeld(g, user, t);
    }
  }

  /** Everything any guild needs for the ceiling: the bits of all low roles and of all the coalition holds. */
  ghost function Ceiling(g: Guild, coalition: set<ID>, t: int): Bits {
    BitsOf(g.roles, set r | r in g.roles &&
      (Low(g.roles[r], t) || exists u :: u in coalition && u in g.members && r in g.members[u].roles))
  }

  lemma CeilingHolds(g: Guild, coalition: set<ID>, t: int)
    ensures Ceiled(g, coalition, t, Ceiling(g, coalition, t))
  {
    hide BitsOf, Within;
    var ids := set r | r in g.roles &&
      (Low(g.roles[r], t) || exists u :: u in coalition && u in g.members && r in g.members[u].roles);
    WithinSelf(BitsOf(g.roles, ids));
    BitsWithin(g.roles, ids, BitsOf(g.roles, ids));
  }

  /**
    Whatever a coalition of non-owners with no top above t does: no top of theirs rises above t,
    the non-default roles at t and above are the same and as they were, the same outsiders hold
    them, and the owner and every outsider whose top was at least t is still there, not renamed,
    and still that high.
  */
  lemma HierarchyOverRuns(g: Guild, coalition: set<ID>, t: int, steps: seq<(ID, Action)>)
    requires WellFormed(g) && g.owner !in coalition && t >= 0
    requires BelowTop(g, coalition, t) && Possible(g, steps, coalition)
    ensures var h := Run(g, steps, coalition);
            && WellFormed(h) && h.owner == g.owner && BelowTop(h, coalition, t)
            && HighRoles(h, t) == HighRoles(g, t)
            && (forall u | u !in coalition :: HighHeld(h, u, t) == HighHeld(g, u, t))
            && forall u | u !in coalition && u in g.members
                 && (AccessOf(g, u).value.owner || AccessOf(g, u).value.top >= t) ::
                 && u in h.members && h.members[u].nickname == g.members[u].nickname
                 && (AccessOf(h, u).value.owner || AccessOf(h, u).value.top >= t)
  {
    hide BitsOf, TopOf, Within, WellFormed, HighHeld, HighRoles;
    CappedIffBelowTop(g, coalition, t);
    var ceiling := Ceiling(g, coalition, t);
    CeilingHolds(g, coalition, t);
    RunSafe(g, g, coalition, t, ceiling, steps);
    var h := Run(g, steps, coalition);
    CappedIffBelowTop(h, coalition, t);
    forall u | u !in coalition && u in g.members && (AccessOf(g, u).value.owner || AccessOf(g, u).value.top >= t)
      ensures u in h.members && h.members[u].nickname == g.members[u].nickname
      ensures AccessOf(h, u).value.owner || AccessOf(h, u).value.top >= t
    {
      ProtectedIffHigh(g, u, t);
      StillProtected(g, h, coalition, t, u);
      ProtectedIffHigh(h, u, t);
    }
  }

  /** And no role below t and no coalition member ever gets a permission that none of these had at the start. */
  lemma CeilingOverRuns(g: Guild, coalition: set<ID>, t: int, steps: seq<(ID, Action)>)
    requires WellFormed(g) && g.owner !in coalition && t >= 0
    requires BelowTop(g, coalition, t) && Possible(g, steps, coalition)
    ensures UnderCeiling(Run(g, steps, coalition), coalition, t, Ceiling(g, coalition, t))
  {
    hide BitsOf, TopOf, Within, WellFormed, HighHeld, HighRoles;
    CappedIffBelowTop(g, coalition, t);
    var ceiling := Ceiling(g, coalition, t);
    CeilingHolds(g, coalition, t);
    RunSafe(g, g, coalition, t, ceiling, steps);
    CeiledIffUnderCeiling(Run(g, steps, coalition), coalition, t, ceiling);
  }

  // ---------- What authority is enough for ----------

  /** The owner is refused only three things: deleting a managed role, removing the owner, and leaving. */
  lemma OwnerIsRarelyForbidden(g: Guild, action: Action)
    requires WellFormed(g)
    ensures Act(g, g.owner, action) == Err(Forbidden) <==>
            || (action.DeleteRole? && action.role in g.roles && g.roles[action.role].managed)
            || (action.RemoveMember? && action.user == g.owner)
            || action.LeaveGuild?
  {
    hide BitsOf, TopOf, KnownBits;
  }

  /** Anyone else needs the permission of the call, whatever their rank. */
  lemma PermissionIsNeeded(g: Guild, actor: ID, action: Action)
    requires WellFormed(g) && actor in g.members && Act(g, actor, action).Ok?
    ensures var access := AccessOf(g, actor).value;
            match action
            case CreateRole(_, _, _, permissions) => access.Has(PERM_MANAGE_ROLES) && access.Has(permissions)
            case UpdateRole(_, _, _, _, _) => access.Has(PERM_MANAGE_ROLES)
            case DeleteRole(_) => access.Has(PERM_MANAGE_ROLES)
            case UpdateMember(user, nickname, roleIDs) =>
              && (roleIDs.Some? ==> access.Has(PERM_MANAGE_ROLES))
              && (nickname.Some? && user != actor ==> access.Has(PERM_MANAGE_MEMBERS))
            case RemoveMember(_) => access.Has(PERM_MANAGE_MEMBERS)
            case LeaveGuild => !access.owner
            case AcceptInvite => true
  {
    hide BitsOf, TopOf, KnownBits;
  }

  /** A role that the owner creates is on top of all others; anyone else's starts at the bottom. */
  lemma NewRolesArePlaced(g: Guild, actor: ID, action: Action, other: ID)
    requires WellFormed(g) && action.CreateRole? && Act(g, actor, action).Ok? && other in g.roles
    ensures var role := Act(g, actor, action).value.roles[action.id];
            if actor == g.owner then role.position > g.roles[other].position
            else role.position == 1 && AccessOf(g, actor).value.top > 1
  {
    hide BitsOf, TopOf, KnownBits;
    TopNotNegative(g.roles, g.roles.Keys);
    TopAtMost(g.roles, g.roles.Keys, TopOf(g.roles, g.roles.Keys));
  }
}
