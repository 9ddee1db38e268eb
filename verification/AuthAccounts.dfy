/**
  Users and the identities they sign in with: the account rows of internal/auth/postgres.go,
  internal/auth/google_postgres.go and internal/auth/account_postgres.go.
*/
module AuthAccounts {
  import opened Common

  datatype Provider = Password | Google

  /** The email is the normalized one. */
  datatype User = User(email: ID, verified: bool)

  datatype Identity = Identity(user: ID, provider: Provider, subject: ID, secret: Option<ID>)

  datatype Accounts = Accounts(users: map<ID, User>, identities: map<ID, Identity>)

  predicate EmailTaken(a: Accounts, email: ID) {
    exists u | u in a.users :: a.users[u].email == email
  }

  predicate SubjectTaken(a: Accounts, provider: Provider, subject: ID) {
    exists i | i in a.identities :: a.identities[i].provider == provider && a.identities[i].subject == subject
  }

  predicate HasMethod(a: Accounts, user: ID, provider: Provider) {
    exists i | i in a.identities :: a.identities[i].user == user && a.identities[i].provider == provider
  }

  /** The rows of one user. */
  function IdentitiesOf(a: Accounts, user: ID): set<ID> {
    set i | i in a.identities && a.identities[i].user == user
  }

  function WithUser(a: Accounts, user: ID, row: User, id: ID, identity: Identity): Accounts {
    Accounts(a.users[user := row], a.identities[id := identity])
  }

  /** CreatePasswordUser, without its session: both UNIQUE constraints refuse with the same error. */
  predicate CanRegister(a: Accounts, email: ID) {
    !EmailTaken(a, email) && !SubjectTaken(a, Password, email)
  }

  function Registered(a: Accounts, user: ID, id: ID, email: ID, secret: ID): Accounts {
    WithUser(a, user, User(email, false), id, Identity(user, Password, email, Some(secret)))
  }

  /** SignInGoogle for a subject nobody has: a new user, unless the address is taken. */
  function GoogleUser(a: Accounts, user: ID, id: ID, subject: ID, email: ID): Accounts {
    WithUser(a, user, User(email, true), id, Identity(user, Google, subject, None))
  }

  /** LinkGoogle */
  predicate CanLink(a: Accounts, user: ID, subject: ID) {
    user in a.users && !SubjectTaken(a, Google, subject) && !HasMethod(a, user, Google)
  }

  function Linked(a: Accounts, user: ID, id: ID, subject: ID, email: ID, emailVerified: bool): Accounts {
    Accounts(
      if user in a.users && emailVerified && email == a.users[user].email
      then a.users[user := a.users[user].(verified := true)] else a.users,
      a.identities[id := Identity(user, Google, subject, None)])
  }

  /** UnlinkAuthenticationMethod deletes the rows of one method. */
  function Unlinked(a: Accounts, user: ID, provider: Provider): Accounts {
    a.(identities := map i | i in a.identities
         && !(a.identities[i].user == user && a.identities[i].provider == provider) :: a.identities[i])
  }

  function Verified(a: Accounts, user: ID): Accounts {
    if user in a.users then a.(users := a.users[user := a.users[user].(verified := true)]) else a
  }

  /** The password rows that a reset token of this user and address changes. */
  predicate Resets(identity: Identity, user: ID, email: ID) {
    identity.user == user && identity.provider == Password && identity.subject == email
  }

  function WithSecret(a: Accounts, user: ID, email: ID, secret: ID): Accounts {
    a.(identities := map i | i in a.identities ::
         if Resets(a.identities[i], user, email) then a.identities[i].(secret := Some(secret)) else a.identities[i])
  }

  // ---------- Invariants ----------

  ghost predicate UniqueEmails(users: map<ID, User>) {
    forall u, v | u in users && v in users && users[u].email == users[v].email :: u == v
  }

  /** (provider, subject) belongs to one user, and a user has one identity of a provider at most. */
  ghost predicate UniqueIdentities(identities: map<ID, Identity>) {
    forall i, j | i in identities && j in identities && i != j && identities[i].provider == identities[j].provider ::
      identities[i].subject != identities[j].subject && identities[i].user != identities[j].user
  }

  ghost predicate Owned(a: Accounts) {
    && (forall i | i in a.identities :: a.identities[i].user in a.users)
    && (forall i | i in a.identities :: a.identities[i].secret.Some? <==> a.identities[i].provider == Password)
    && forall u | u in a.users :: IdentitiesOf(a, u) != {}
  }

  ghost predicate Sound(a: Accounts) {
    UniqueEmails(a.users) && UniqueIdentities(a.identities) && Owned(a)
  }

  lemma NewUserKeeps(a: Accounts, user: ID, row: User, id: ID, identity: Identity)
    requires Sound(a) && user !in a.users && id !in a.identities && !EmailTaken(a, row.email)
    requires identity.user == user && !SubjectTaken(a, identity.provider, identity.subject)
    requires identity.secret.Some? <==> identity.provider == Password
    ensures Sound(WithUser(a, user, row, id, identity))
  {
    var a' := WithUser(a, user, row, id, identity);
    forall u | u in a'.users
      ensures IdentitiesOf(a', u) != {}
    {
      if u == user {
        assert id in IdentitiesOf(a', u);
      } else {
        var i :| i in IdentitiesOf(a, u);
        assert i in IdentitiesOf(a', u);
      }
    }
  }

  lemma LinkKeeps(a: Accounts, user: ID, id: ID, subject: ID, email: ID, emailVerified: bool)
    requires Sound(a) && id !in a.identities && CanLink(a, user, subject)
    ensures Sound(Linked(a, user, id, subject, email, emailVerified))
  {
    assert UniqueIdentities(Linked(a, user, id, subject, email, emailVerified).identities) by {
      hide Owned, UniqueEmails;
    }
    hide UniqueIdentities;
    var a' := Linked(a, user, id, subject, email, emailVerified);
    forall u | u in a'.users
      ensures IdentitiesOf(a', u) != {}
    {
      var i :| i in IdentitiesOf(a, u);
      assert i in IdentitiesOf(a', u);
    }
  }

  /** Neither dropping rows nor changing secrets can break uniqueness. */
  lemma StillUnique(identities: map<ID, Identity>, identities': map<ID, Identity>)
    requires UniqueIdentities(identities)
    requires forall i | i in identities' ::
      i in identities && identities'[i].(secret := identities[i].secret) == identities[i]
    ensures UniqueIdentities(identities')
  {
    forall i, j | i in identities' && j in identities' && i != j && identities'[i].provider == identities'[j].provider
      ensures identities'[i].subject != identities'[j].subject && identities'[i].user != identities'[j].user
    {
      assert identities[i].provider == identities[j].provider;
    }
  }

  lemma UnlinkKeeps(a: Accounts, user: ID, provider: Provider)
    requires Sound(a) && |IdentitiesOf(a, user)| > 1
    ensures Sound(Unlinked(a, user, provider))
  {
    hide UniqueEmails;
    var a' := Unlinked(a, user, provider);
    StillUnique(a.identities, a'.identities) by { hide Owned; }
    forall u | u in a'.users
      ensures IdentitiesOf(a', u) != {}
    {
      OneStays(a, user, provider, u);
    }
    hide UniqueIdentities;
  }

  lemma OneStays(a: Accounts, user: ID, provider: Provider, u: ID)
    requires Sound(a) && |IdentitiesOf(a, user)| > 1 && u in a.users
    ensures IdentitiesOf(Unlinked(a, user, provider), u) != {}
  {
    hide UniqueEmails;
    var i :| i in IdentitiesOf(a, u);
    if u == user && a.identities[i].provider == provider {
      var others := IdentitiesOf(a, u) - {i};
      assert |others| > 0;
      var j :| j in others;
      assert a.identities[j].provider != provider;
      assert j in IdentitiesOf(Unlinked(a, user, provider), u);
    } else {
      assert i in IdentitiesOf(Unlinked(a, user, provider), u);
    }
  }

  lemma VerifyKeeps(a: Accounts, user: ID)
    requires Sound(a)
    ensures Sound(Verified(a, user))
  {
    forall u | u in a.users
      ensures IdentitiesOf(Verified(a, user), u) == IdentitiesOf(a, u)
    {
    }
  }

  lemma ResetKeeps(a: Accounts, user: ID, email: ID, secret: ID)
    requires Sound(a)
    ensures Sound(WithSecret(a, user, email, secret))
  {
    hide UniqueEmails, UniqueIdentities;
    StillUnique(a.identities, WithSecret(a, user, email, secret).identities) by { hide Owned; }
    forall u | u in a.users
      ensures IdentitiesOf(WithSecret(a, user, email, secret), u) == IdentitiesOf(a, u)
    {
    }
  }

  // ---------- What later states keep ----------

  /** Users are never deleted and keep their address. */
  ghost predicate Continues(a: Accounts, a': Accounts) {
    forall u | u in a.users :: u in a'.users && a'.users[u].email == a.users[u].email
  }

  /** The Google subjects of a user. */
  function GoogleSubjects(a: Accounts, user: ID): set<ID> {
    set i | i in a.identities && a.identities[i].user == user && a.identities[i].provider == Google ::
      a.identities[i].subject
  }
}
