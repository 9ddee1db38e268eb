/**
  Roles, permission bits and the authority of a member in one guild: internal/chat/permissions.go
  and the read side of internal/chat/roles_postgres.go.
*/
module GuildAccess {
  import opened Common

  type Bits = bv64

  const PERM_MANAGE_ROLES: Bits := 0x20
  const PERM_MANAGE_MEMBERS: Bits := 0x40
  const ALL_PERMISSIONS: Bits := 0x7ff
  const MAX_INT32: int := 0x7fff_ffff

  datatype Role = Role(
    name: string, color: Option<string>, permissions: Bits, position: int, managed: bool, isDefault: bool)

  /** A member row with the roles assigned to it; the default role is not among them. */
  datatype Member = Member(nickname: Option<string>, roles: set<ID>)

  datatype Guild = Guild(owner: ID, members: map<ID, Member>, roles: map<ID, Role>)

  /** The constraints of the schema and of guild creation. */
  ghost predicate WellFormed(g: Guild) {
    && g.owner in g.members
    && (forall r | r in g.roles :: g.roles[r].position >= 0)
    && (forall r | r in g.roles && g.roles[r].isDefault :: g.roles[r].managed && g.roles[r].position == 0)
    && (forall u, r | u in g.members && r in g.members[u].roles :: r in g.roles && !g.roles[r].isDefault)
  }

  datatype Access = Access(owner: bool, permissions: Bits, top: int) {
    predicate Has(permission: Bits) {
      owner || permissions & permission == permission
    }

    predicate Outranks(position: int) {
      owner || top > position
    }
  }

  function OwnerAccess(): Access {
    Access(true, ALL_PERMISSIONS, MAX_INT32)
  }

  /** The roles that apply to a member: the default role and the assigned ones. */
  function Held(g: Guild, user: ID): set<ID>
    requires user in g.members
  {
    set r | r in g.roles && (g.roles[r].isDefault || r in g.members[user].roles)
  }

  function Joined(a: Bits, b: Bits): Bits {
    a | b
  }

  /** bit_or over a set of roles. */
  ghost function BitsOf(roles: map<ID, Role>, ids: set<ID>): Bits
    requires ids <= roles.Keys
  {
    if ids == {} then 0 else var r :| r in ids; Joined(roles[r].permissions, BitsOf(roles, ids - {r}))
  }

  /** max(position) over a set of roles, zero for none. */
  ghost function TopOf(roles: map<ID, Role>, ids: set<ID>): int
    requires ids <= roles.Keys
  {
    if ids == {} then 0
    else
      var r :| r in ids;
      var rest := TopOf(roles, ids - {r});
      if roles[r].position > rest then roles[r].position else rest
  }

  /** GetAccess */
  ghost function AccessOf(g: Guild, user: ID): Option<Access> {
    if user !in g.members then None
    else if user == g.owner then Some(OwnerAccess())
    else Some(Access(false, BitsOf(g.roles, Held(g, user)), TopOf(g.roles, Held(g, user))))
  }

  // ---------- What the aggregates mean ----------

  predicate Within(a: Bits, u: Bits) {
    a & u == a
  }

  lemma WithinOr(a: Bits, b: Bits, u: Bits)
    ensures Within(Joined(a, b), u) <==> Within(a, u) && Within(b, u)
  {
    hide Within, Joined;
    if Within(Joined(a, b), u) {
      OrWithin(a, b, u);
    }
    if Within(a, u) && Within(b, u) {
      BothWithin(a, b, u);
    }
  }

  lemma OrWithin(a: Bits, b: Bits, u: Bits)
    requires Within(Joined(a, b), u)
    ensures Within(a, u) && Within(b, u)
  {
  }

  lemma BothWithin(a: Bits, b: Bits, u: Bits)
    requires Within(a, u) && Within(b, u)
    ensures Within(Joined(a, b), u)
  {
  }

  /** A set of roles grants no more than u exactly when none of its roles does. */
  lemma {:induction false} BitsWithin(roles: map<ID, Role>, ids: set<ID>, u: Bits)
    requires ids <= roles.Keys
    ensures Within(BitsOf(roles, ids), u) <==> forall r | r in ids :: Within(roles[r].permissions, u)
  {
    hide Within, Joined;
    if ids == {} {
      NothingWithin(u);
    } else {
      var r :| r in ids && BitsOf(roles, ids) == Joined(roles[r].permissions, BitsOf(roles, ids - {r}));
      BitsWithin(roles, ids - {r}, u);
      WithinOr(roles[r].permissions, BitsOf(roles, ids - {r}), u);
      assert forall k | k in ids :: k == r || k in ids - {r};
    }
  }

  lemma NothingWithin(u: Bits)
    ensures Within(0, u)
  {
  }

  /** The top position is at most t exactly when every role's is. */
  lemma {:induction false} TopAtMost(roles: map<ID, Role>, ids: set<ID>, t: int)
    requires ids <= roles.Keys && t >= 0
    ensures TopOf(roles, ids) <= t <==> forall r | r in ids :: roles[r].position <= t
  {
    if ids != {} {
      var r :| r in ids && TopOf(roles, ids) == (
        var rest := TopOf(roles, ids - {r});
        if roles[r].position > rest then roles[r].position else rest);
      TopAtMost(roles, ids - {r}, t);
      assert forall k | k in ids :: k == r || k in ids - {r};
    }
  }

  lemma {:induction false} TopNotNegative(roles: map<ID, Role>, ids: set<ID>)
    requires ids <= roles.Keys
    ensures TopOf(roles, ids) >= 0
  {
    if ids != {} {
      var r :| r in ids && TopOf(roles, ids) == (
        var rest := TopOf(roles, ids - {r});
        if roles[r].position > rest then roles[r].position else rest);
      TopNotNegative(roles, ids - {r});
    }
  }

  lemma WithinAntisymmetric(a: Bits, b: Bits)
    requires Within(a, b) && Within(b, a)
    ensures a == b
  {
  }

  lemma WithinSelf(a: Bits)
    ensures Within(a, a)
  {
  }

  /** The union of permissions is determined by what it is within. */
  lemma SameBits(roles: map<ID, Role>, ids: set<ID>, bits: Bits)
    requires ids <= roles.Keys
    requires forall u :: Within(bits, u) <==> forall r | r in ids :: Within(roles[r].permissions, u)
    ensures bits == BitsOf(roles, ids)
  {
    hide Within, Joined;
    WithinSelf(bits);
    WithinSelf(BitsOf(roles, ids));
    BitsWithin(roles, ids, bits);
    BitsWithin(roles, ids, BitsOf(roles, ids));
    WithinAntisymmetric(bits, BitsOf(roles, ids));
  }
}
