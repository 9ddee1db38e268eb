/**
  The role and member actions of internal/chat/roles.go and internal/chat/members.go as
  functions on one guild, each applied to the state its service call reads.
*/
module GuildActions {
  import opened Common
  import opened GuildAccess

  datatype Error = NotFound | Forbidden | Invalid

  /** An absent field stays as it is. Names, colours and nicknames are already validated. */
  datatype Action =
    | CreateRole(id: ID, name: string, color: Option<string>, permissions: Bits)
    | UpdateRole(role: ID, newName: Option<string>, newColor: Option<Option<string>>,
                 newPermissions: Option<Bits>, newPosition: Option<int>)
    | DeleteRole(role: ID)
    | UpdateMember(user: ID, nickname: Option<Option<string>>, roleIDs: Option<seq<ID>>)
    | RemoveMember(user: ID)
    | LeaveGuild
    | AcceptInvite

  /** require: the caller's access if it holds the permission. */
  ghost function Require(g: Guild, actor: ID, permission: Bits): Result<Access, Error> {
    match AccessOf(g, actor)
    case None => Err(NotFound)
    case Some(access) => if access.Has(permission) then Ok(access) else Err(Forbidden)
  }

  /** validatePermissions */
  predicate KnownBits(permissions: Bits) {
    permissions & !ALL_PERMISSIONS == 0
  }

  /** The bits a role would gain or lose. */
  function Changed(a: Bits, b: Bits): Bits {
    a ^ b
  }

  ghost function CreatedRole(g: Guild, actor: ID, action: Action): Result<Role, Error>
    requires action.CreateRole?
  {
    match Require(g, actor, PERM_MANAGE_ROLES)
    case Err(e) => Err(e)
    case Ok(access) =>
      if !KnownBits(action.permissions) then Err(Invalid)
      else if !access.Has(action.permissions) then Err(Forbidden)
      else if access.owner then
        Ok(Role(action.name, action.color, action.permissions, TopOf(g.roles, g.roles.Keys) + 1, false, false))
      else if access.top <= 1 then Err(Forbidden)
      else Ok(Role(action.name, action.color, action.permissions, 1, false, false))
  }

  /** The checks and assignments of UpdateRole on the stored role. */
  function EditedRole(access: Access, role: Role, action: Action): Result<Role, Error>
    requires action.UpdateRole?
  {
    if !access.Outranks(role.position) && !role.isDefault then Err(Forbidden)
    else if role.isDefault && (action.newName.Some? || action.newColor.Some? || action.newPosition.Some?) then Err(Invalid)
    else if action.newPermissions.Some? && !KnownBits(action.newPermissions.value) then Err(Invalid)
    else if action.newPermissions.Some? && !access.Has(Changed(action.newPermissions.value, role.permissions)) then
      Err(Forbidden)
    else if action.newPosition.Some? && action.newPosition.value < 1 then Err(Invalid)
    else if action.newPosition.Some? && !access.Outranks(action.newPosition.value) then Err(Forbidden)
    else
      Ok(role.(
         name := if action.newName.Some? then action.newName.value else role.name,
         color := if action.newColor.Some? then action.newColor.value else role.color,
         permissions := if action.newPermissions.Some? then action.newPermissions.value else role.permissions,
         position := if action.newPosition.Some? then action.newPosition.value else role.position))
  }

  ghost function UpdatedRole(g: Guild, actor: ID, action: Action): Result<Role, Error>
    requires action.UpdateRole?
  {
    if action.newName.None? && action.newColor.None? && action.newPermissions.None? && action.newPosition.None? then
      Err(Invalid)
    else
      match Require(g, actor, PERM_MANAGE_ROLES)
      case Err(e) => Err(e)
      case Ok(access) =>
        if action.role !in g.roles then Err(NotFound) else EditedRole(access, g.roles[action.role], action)
  }

  /** DELETE FROM guild_roles, with the cascade to the assignments. */
  function WithoutRole(g: Guild, role: ID): Guild {
    g.(roles := g.roles - {role},
       members := map u | u in g.members :: g.members[u].(roles := g.members[u].roles - {role}))
  }

  ghost function DeletedRole(g: Guild, actor: ID, role: ID): Result<Guild, Error> {
    match Require(g, actor, PERM_MANAGE_ROLES)
    case Err(e) => Err(e)
    case Ok(access) =>
      if role !in g.roles then Err(NotFound)
      else if g.roles[role].managed || !access.Outranks(g.roles[role].position) then Err(Forbidden)
      else Ok(WithoutRole(g, role))
  }

  /** checkOutranksMember */
  ghost predicate OutranksMember(g: Guild, access: Access, target: ID)
    requires target in g.members
  {
    !AccessOf(g, target).value.owner && access.Outranks(AccessOf(g, target).value.top)
  }

  /** assignRoles: the new set of assigned roles. */
  function AssignedRoles(roles: map<ID, Role>, access: Access, current: set<ID>, requested: seq<ID>): Result<set<ID>, Error>
    requires current <= roles.Keys
  {
    var next := set r | r in requested;
    if exists r | r in requested :: r !in roles || roles[r].managed then Err(Invalid)
    else if exists r | r in next - current :: !access.Outranks(roles[r].position) then Err(Forbidden)
    else if exists r | r in current - next :: !access.Outranks(roles[r].position) then Err(Forbidden)
    else Ok(next)
  }

  ghost function UpdatedMember(g: Guild, actor: ID, action: Action): Result<Member, Error>
    requires action.UpdateMember? && WellFormed(g)
  {
    if action.nickname.None? && action.roleIDs.None? then Err(Invalid)
    else if actor !in g.members || action.user !in g.members then Err(NotFound)
    else
      var access := AccessOf(g, actor).value;
      var member := g.members[action.user];
      if action.nickname.Some? && actor != action.user && !access.Has(PERM_MANAGE_MEMBERS) then Err(Forbidden)
      else if action.nickname.Some? && actor != action.user && !OutranksMember(g, access, action.user) then Err(Forbidden)
      else if action.roleIDs.Some? && !access.Has(PERM_MANAGE_ROLES) then Err(Forbidden)
      else if action.roleIDs.Some? && actor != action.user && !OutranksMember(g, access, action.user) then Err(Forbidden)
      else
        var roles := if action.roleIDs.Some?
                     then AssignedRoles(g.roles, access, member.roles, action.roleIDs.value) else Ok(member.roles);
        match roles
        case Err(e) => Err(e)
        case Ok(ids) =>
          Ok(Member(if action.nickname.Some? then action.nickname.value else member.nickname, ids))
  }

  ghost function RemovedMember(g: Guild, actor: ID, user: ID): Result<Guild, Error> {
    match Require(g, actor, PERM_MANAGE_MEMBERS)
    case Err(e) => Err(e)
    case Ok(access) =>
      if actor == user then Err(Forbidden)
      else if user !in g.members then Err(NotFound)
      else if !OutranksMember(g, access, user) then Err(Forbidden)
      else Ok(g.(members := g.members - {user}))
  }

  ghost function Left(g: Guild, actor: ID): Result<Guild, Error> {
    if actor !in g.members then Err(NotFound)
    else if actor == g.owner then Err(Forbidden)
    else Ok(g.(members := g.members - {actor}))
  }

  /** One service call by the actor. */
  ghost function Act(g: Guild, actor: ID, action: Action): Result<Guild, Error>
    requires WellFormed(g)
  {
    match action
    case CreateRole(id, _, _, _) =>
      (match CreatedRole(g, actor, action)
       case Err(e) => Err(e)
       case Ok(role) => Ok(g.(roles := g.roles[id := role])))
    case UpdateRole(id, _, _, _, _) =>
      (match UpdatedRole(g, actor, action)
       case Err(e) => Err(e)
       case Ok(role) => Ok(g.(roles := g.roles[id := role])))
    case DeleteRole(id) => DeletedRole(g, actor, id)
    case UpdateMember(user, _, _) =>
      (match UpdatedMember(g, actor, action)
       case Err(e) => Err(e)
       case Ok(member) => Ok(g.(members := g.members[user := member])))
    case RemoveMember(user) => RemovedMember(g, actor, user)
    case LeaveGuild => Left(g, actor)
    case AcceptInvite =>
      Ok(if actor in g.members then g else g.(members := g.members[actor := Member(None, {})]))
  }

  // ---------- Runs of a coalition ----------

  /** An action by one of its members; a created role gets a fresh UUID. */
  predicate Enabled(g: Guild, step: (ID, Action), coalition: set<ID>) {
    step.0 in coalition && (step.1.CreateRole? ==> step.1.id !in g.roles)
  }

  /** A refused action changes nothing. */
  ghost function Effect(g: Guild, step: (ID, Action)): Guild
    requires WellFormed(g)
  {
    var r := Act(g, step.0, step.1);
    if r.Ok? then r.value else g
  }

  ghost predicate Possible(g: Guild, steps: seq<(ID, Action)>, coalition: set<ID>)
    decreases |steps|
  {
    steps == [] ||
    (WellFormed(g) && Enabled(g, steps[0], coalition) && Possible(Effect(g, steps[0]), steps[1..], coalition))
  }

  ghost function Run(g: Guild, steps: seq<(ID, Action)>, coalition: set<ID>): Guild
    requires Possible(g, steps, coalition)
    decreases |steps|
  {
    if steps == [] then g else Run(Effect(g, steps[0]), steps[1..], coalition)
  }
}
