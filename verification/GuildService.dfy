/**
  The calls of internal/chat/roles.go and internal/chat/members.go as they change the rows of
  one guild: each does to the tables what its action does to the guild.
*/
module GuildService {
  import opened Common
  import opened GuildAccess
  import opened GuildActions

  /** A call either has the action's effect or reports its error and changes nothing. */
  ghost predicate Outcome(before: Guild, actor: ID, action: Action, after: Guild, err: Option<Error>)
    requires WellFormed(before)
  {
    match Act(before, actor, action)
    case Ok(g) => err.None? && after == g
    case Err(e) => err == Some(e) && after == before
  }

  lemma BitsAdd(roles: map<ID, Role>, ids: set<ID>, r: ID)
    requires ids <= roles.Keys && r in roles
    ensures BitsOf(roles, ids + {r}) == Joined(BitsOf(roles, ids), roles[r].permissions)
  {
    hide Within, Joined;
    var bits := Joined(BitsOf(roles, ids), roles[r].permissions);
    forall u
      ensures Within(bits, u) <==> forall k | k in ids + {r} :: Within(roles[k].permissions, u)
    {
      WithinOr(BitsOf(roles, ids), roles[r].permissions, u);
      BitsWithin(roles, ids, u);
    }
    SameBits(roles, ids + {r}, bits);
  }

  lemma TopAdd(roles: map<ID, Role>, ids: set<ID>, r: ID)
    requires ids <= roles.Keys && r in roles
    ensures TopOf(roles, ids + {r})
         == if roles[r].position > TopOf(roles, ids) then roles[r].position else TopOf(roles, ids)
  {
    var top := TopOf(roles, ids);
    var top' := if roles[r].position > top then roles[r].position else top;
    TopNotNegative(roles, ids);
    TopNotNegative(roles, ids + {r});
    TopAtMost(roles, ids, top);
    TopAtMost(roles, ids + {r}, top');
    TopAtMost(roles, ids + {r}, TopOf(roles, ids + {r}));
    TopAtMost(roles, ids, TopOf(roles, ids + {r}));
  }

  lemma NoRoles(roles: map<ID, Role>)
    ensures BitsOf(roles, {}) == 0 && TopOf(roles, {}) == 0
  {
  }

  class GuildStore {
    const owner: ID
    var members: map<ID, Member>
    var roles: map<ID, Role>

    ghost function Model(): Guild
      reads this
    {
      Guild(owner, members, roles)
    }

    constructor (owner: ID, defaultRole: ID, permissions: Bits)
      ensures WellFormed(Model())
      ensures Model() == Guild(owner, map[owner := Member(None, {})],
                               map[defaultRole := Role("@everyone", None, permissions, 0, true, true)])
    {
      this.owner := owner;
      members := map[owner := Member(None, {})];
      roles := map[defaultRole := Role("@everyone", None, permissions, 0, true, true)];
    }

    /** The aggregate query of GetAccess, row by row. */
    method GetAccess(user: ID) returns (r: Option<Access>)
      ensures r == AccessOf(Model(), user)
    {
      if user !in members {
        return None;
      }
      if user == owner {
        return Some(OwnerAccess());
      }
      hide BitsOf, TopOf, Joined;
      NoRoles(roles);
      ghost var held := Held(Model(), user);
      var bits, top := 0, 0;
      var pending := roles.Keys;
      ghost var done: set<ID> := {};
      while pending != {}
        invariant pending <= roles.Keys && done == held - pending
        invariant bits == BitsOf(roles, done) && top == TopOf(roles, done)
        decreases pending
      {
        var id :| id in pending;
        if roles[id].isDefault || id in members[user].roles {
          BitsAdd(roles, done, id);
          TopAdd(roles, done, id);
          bits := Joined(bits, roles[id].permissions);
          top := if roles[id].position > top then roles[id].position else top;
          done := done + {id};
        }
        pending := pending - {id};
      }
      assert done == held;
      r := Some(Access(false, bits, top));
    }

    method RequireAccess(actor: ID, permission: Bits) returns (r: Result<Access, Error>)
      ensures r == Require(Model(), actor, permission)
    {
      hide AccessOf;
      var access := GetAccess(actor);
      if access.None? {
        return Err(NotFound);
      }
      if !access.value.Has(permission) {
        return Err(Forbidden);
      }
      return Ok(access.value);
    }

    /** The position of the last row of ListRoles, which orders by position. */
    method LastPosition() returns (top: int)
      ensures top == TopOf(roles, roles.Keys)
    {
      hide TopOf;
      NoRoles(roles);
      top := 0;
      var pending := roles.Keys;
      ghost var done: set<ID> := {};
      while pending != {}
        invariant pending <= roles.Keys && done == roles.Keys - pending
        invariant top == TopOf(roles, done)
        decreases pending
      {
        var id :| id in pending;
        TopAdd(roles, done, id);
        top := if roles[id].position > top then roles[id].position else top;
        done := done + {id};
        pending := pending - {id};
      }
      assert done == roles.Keys;
    }

    method CreateRole(actor: ID, id: ID, name: string, color: Option<string>, permissions: Bits)
      returns (err: Option<Error>)
      requires WellFormed(Model()) && id !in roles
      modifies this`roles
      ensures Outcome(old(Model()), actor, Action.CreateRole(id, name, color, permissions), Model(), err)
    {
      hide AccessOf, TopOf, KnownBits;
      var granted := RequireAccess(actor, PERM_MANAGE_ROLES);
      if granted.Err? {
        return Some(granted.error);
      }
      var access := granted.value;
      if !KnownBits(permissions) {
        return Some(Invalid);
      }
      if !access.Has(permissions) {
        return Some(Forbidden);
      }
      var position := 1;
      if access.owner {
        var last := LastPosition();
        position := last + 1;
      } else if access.top <= position {
        return Some(Forbidden);
      }
      roles := roles[id := Role(name, color, permissions, position, false, false)];
      return None;
    }

    method UpdateRole(actor: ID, id: ID, name: Option<string>, color: Option<Option<string>>,
                      permissions: Option<Bits>, position: Option<int>)
      returns (err: Option<Error>)
      requires WellFormed(Model())
      modifies this`roles
      ensures Outcome(old(Model()), actor, Action.UpdateRole(id, name, color, permissions, position), Model(), err)
    {
      hide AccessOf, KnownBits, Changed;
      if name.None? && color.None? && permissions.None? && position.None? {
        return Some(Invalid);
      }
      var granted := RequireAccess(actor, PERM_MANAGE_ROLES);
      if granted.Err? {
        return Some(granted.error);
      }
      var access := granted.value;
      if id !in roles {
        return Some(NotFound);
      }
      var role := roles[id];
      if !access.Outranks(role.position) && !role.isDefault {
        return Some(Forbidden);
      }
      if role.isDefault && (name.Some? || color.Some? || position.Some?) {
        return Some(Invalid);
      }
      if name.Some? {
        role := role.(name := name.value);
      }
      if color.Some? {
        role := role.(color := color.value);
      }
      if permissions.Some? {
        if !KnownBits(permissions.value) {
          return Some(Invalid);
        }
        if !access.Has(Changed(permissions.value, role.permissions)) {
          return Some(Forbidden);
        }
        role := role.(permissions := permissions.value);
      }
      if position.Some? {
        if position.value < 1 {
          return Some(Invalid);
        }
        if !access.Outranks(position.value) {
          return Some(Forbidden);
        }
        role := role.(position := position.value);
      }
      roles := roles[id := role];
      return None;
    }

    method DeleteRole(actor: ID, id: ID) returns (err: Option<Error>)
      requires WellFormed(Model())
      modifies this
      ensures Outcome(old(Model()), actor, Action.DeleteRole(id), Model(), err)
    {
      hide AccessOf;
      var granted := RequireAccess(actor, PERM_MANAGE_ROLES);
      if granted.Err? {
        return Some(granted.error);
      }
      if id !in roles {
        return Some(NotFound);
      }
      if roles[id].managed || !granted.value.Outranks(roles[id].position) {
        return Some(Forbidden);
      }
      roles := roles - {id};
      members := map u | u in members :: members[u].(roles := members[u].roles - {id});
      return None;
    }

    method CheckOutranksMember(access: Access, target: ID) returns (err: Option<Error>)
      ensures err == if target !in members then Some(NotFound)
                     else if OutranksMember(Model(), access, target) then None else Some(Forbidden)
    {
      var found := GetAccess(target);
      if found.None? {
        return Some(NotFound);
      }
      if found.value.owner || !access.Outranks(found.value.top) {
        return Some(Forbidden);
      }
      return None;
    }

    /** assignRoles */
    method AssignRoles(access: Access, user: ID, requested: seq<ID>) returns (err: Option<Error>)
      requires WellFormed(Model()) && user in members
      modifies this`members
      ensures match AssignedRoles(roles, access, old(members[user].roles), requested)
              case Ok(ids) => err.None? && members == old(members)[user := old(members[user]).(roles := ids)]
              case Err(e) => err == Some(e) && members == old(members)
    {
      var next: set<ID> := {};
      for i := 0 to |requested|
        invariant next == set r | r in requested[..i]
        invariant forall r | r in next :: r in roles && !roles[r].managed
      {
        if requested[i] !in roles || roles[requested[i]].managed {
          return Some(Invalid);
        }
        assert requested[..i + 1] == requested[..i] + [requested[i]];
        next := next + {requested[i]};
      }
      assert requested[..|requested|] == requested;
      var current := members[user].roles;
      var refused := AnyOutOfReach(access, next, current);
      if !refused {
        refused := AnyOutOfReach(access, current, next);
      }
      if refused {
        return Some(Forbidden);
      }
      SetMemberRoles(user, next);
      return None;
    }

    /** Deletes the member's assignments and inserts the new ones. */
    method SetMemberRoles(user: ID, ids: set<ID>)
      requires user in members
      modifies this`members
      ensures members == old(members)[user := old(members[user]).(roles := ids)]
    {
      members := members[user := members[user].(roles := {})];
      var pending := ids;
      ghost var done: set<ID> := {};
      while pending != {}
        invariant done == ids - pending && pending <= ids
        invariant members == old(members)[user := old(members[user]).(roles := done)]
        decreases pending
      {
        var id :| id in pending;
        members := members[user := members[user].(roles := members[user].roles + {id})];
        done := done + {id};
        pending := pending - {id};
      }
      assert done == ids;
    }

    /** One of the two loops that check the roles that change. */
    method AnyOutOfReach(access: Access, these: set<ID>, others: set<ID>) returns (found: bool)
      requires these <= roles.Keys
      ensures found <==> exists r | r in these - others :: !access.Outranks(roles[r].position)
    {
      var pending := these;
      while pending != {}
        invariant pending <= these
        invariant forall r | r in these - others :: r in pending || access.Outranks(roles[r].position)
        decreases pending
      {
        var id :| id in pending;
        if id !in others && !access.Outranks(roles[id].position) {
          assert id in these - others;
          return true;
        }
        pending := pending - {id};
      }
      return false;
    }

    method UpdateMember(actor: ID, user: ID, nickname: Option<Option<string>>, roleIDs: Option<seq<ID>>)
      returns (err: Option<Error>)
      requires WellFormed(Model())
      modifies this`members
      ensures Outcome(old(Model()), actor, Action.UpdateMember(user, nickname, roleIDs), Model(), err)
    {
      hide BitsOf, TopOf, AssignedRoles;
      if nickname.None? && roleIDs.None? {
        return Some(Invalid);
      }
      var found := GetAccess(actor);
      if found.None? || user !in members {
        return Some(NotFound);
      }
      var access := found.value;
      if nickname.Some? && actor != user {
        if !access.Has(PERM_MANAGE_MEMBERS) {
          return Some(Forbidden);
        }
        err := CheckOutranksMember(access, user);
        if err.Some? {
          return;
        }
      }
      if roleIDs.Some? {
        if !access.Has(PERM_MANAGE_ROLES) {
          return Some(Forbidden);
        }
        if actor != user {
          err := CheckOutranksMember(access, user);
          if err.Some? {
            return;
          }
        }
        err := AssignRoles(access, user, roleIDs.value);
        if err.Some? {
          return;
        }
      }
      if nickname.Some? {
        members := members[user := members[user].(nickname := nickname.value)];
      }
      return None;
    }

    method RemoveMember(actor: ID, user: ID) returns (err: Option<Error>)
      requires WellFormed(Model())
      modifies this`members
      ensures Outcome(old(Model()), actor, Action.RemoveMember(user), Model(), err)
    {
      hide BitsOf, TopOf;
      var granted := RequireAccess(actor, PERM_MANAGE_MEMBERS);
      if granted.Err? {
        return Some(granted.error);
      }
      if actor == user {
        return Some(Forbidden);
      }
      err := CheckOutranksMember(granted.value, user);
      if err.Some? {
        return;
      }
      members := members - {user};
      return None;
    }

    method LeaveGuild(actor: ID) returns (err: Option<Error>)
      requires WellFormed(Model())
      modifies this`members
      ensures Outcome(old(Model()), actor, Action.LeaveGuild, Model(), err)
    {
      if actor !in members {
        return Some(NotFound);
      }
      if actor == owner {
        return Some(Forbidden);
      }
      members := members - {actor};
      return None;
    }
  }
}
