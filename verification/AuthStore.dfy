/**
  The auth store statement by statement: every transaction leaves the tables, and returns the
  error, that its call specifies. A statement over many rows is a loop over its table, or one assignment to it.
*/
module AuthStore {
  import opened Common
  import A = AuthAccounts
  import S = AuthSessions
  import M = AuthEmailTokens
  import opened AuthService

  class Store {
    const ttl: S.Lifetimes
    var users: map<ID, A.User>
    var identities: map<ID, A.Identity>
    var sessions: map<ID, S.Session>
    var refreshTokens: map<ID, S.RefreshToken>
    var emailTokens: map<ID, M.EmailToken>

    ghost function View(): Db
      reads this
    {
      Db(A.Accounts(users, identities), S.Sessions(sessions, refreshTokens), emailTokens)
    }

    constructor (ttl: S.Lifetimes)
      ensures View() == Init().db && this.ttl == ttl
    {
      this.ttl := ttl;
      users, identities, sessions, refreshTokens, emailTokens := map[], map[], map[], map[], map[];
    }

    /** SELECT ... WHERE provider = and provider_subject = */
    method FindIdentity(provider: A.Provider, subject: ID) returns (found: Option<ID>)
      requires A.UniqueIdentities(identities)
      ensures found == Find(View().accounts, provider, subject)
    {
      var pending := identities.Keys;
      while pending != {}
        invariant pending <= identities.Keys
        invariant forall i | i in identities && i !in pending ::
          !(identities[i].provider == provider && identities[i].subject == subject)
        decreases pending
      {
        var id :| id in pending;
        if identities[id].provider == provider && identities[id].subject == subject {
          return Some(id);
        }
        pending := pending - {id};
      }
      return None;
    }

    method InsertSession(user: ID, issue: S.Issue, now: Time)
      modifies this`sessions, this`refreshTokens
      ensures View() == old(View()).(sessions := S.Open(old(View()).sessions, user, issue, now, ttl))
    {
      sessions := sessions[issue.session := S.Session(user, issue.access, now + ttl.access, now + ttl.refresh, None)];
      refreshTokens := refreshTokens[issue.refresh := S.RefreshToken(issue.session, now + ttl.refresh, None)];
    }

    method CreatePasswordUser(user: ID, identity: ID, email: ID, secret: ID, issue: S.Issue, now: Time)
      returns (err: Option<Error>, issued: Option<S.Issue>)
      modifies this
      ensures Outcome(View(), err, issued) == Step(old(View()), Call.Register(user, identity, email, secret, issue), now, ttl)
    {
      if exists u | u in users :: users[u].email == email {
        return Some(EmailAlreadyRegistered), None;
      }
      if exists i | i in identities :: identities[i].provider == A.Password && identities[i].subject == email {
        return Some(EmailAlreadyRegistered), None;
      }
      users := users[user := A.User(email, false)];
      identities := identities[identity := A.Identity(user, A.Password, email, Some(secret))];
      InsertSession(user, issue, now);
      return None, Some(issue);
    }

    method Login(email: ID, verifies: ID -> bool, issue: S.Issue, now: Time)
      returns (err: Option<Error>, issued: Option<S.Issue>)
      requires A.UniqueIdentities(identities)
      modifies this`sessions, this`refreshTokens
      ensures Outcome(View(), err, issued) == Step(old(View()), Call.Login(email, verifies, issue), now, ttl)
    {
      hide A.UniqueIdentities, Find;
      var found := FindIdentity(A.Password, email);
      if found.None? {
        return Some(InvalidCredentials), None;
      }
      assert found.value in identities by { FoundIsThere(View().accounts, A.Password, email); }
      var secret := identities[found.value].secret;
      if secret.None? || !verifies(secret.value) {
        return Some(InvalidCredentials), None;
      }
      InsertSession(identities[found.value].user, issue, now);
      return None, Some(issue);
    }

    method RotateSession(token: ID, access: ID, refresh: ID, now: Time)
      returns (err: Option<Error>, issued: Option<S.Issue>)
      modifies this`sessions, this`refreshTokens
      ensures Outcome(View(), err, issued) == Step(old(View()), Call.Refresh(token, access, refresh), now, ttl)
    {
      if token !in refreshTokens || refreshTokens[token].session !in sessions {
        return Some(InvalidRefreshToken), None;
      }
      var row := refreshTokens[token];
      var id := row.session;
      var session := sessions[id];
      if row.consumed.Some? || session.revoked.Some? || now >= row.expires || now >= session.expires {
        if session.revoked.None? {
          sessions := sessions[id := session.(revoked := Some(now))];
        }
        return Some(InvalidRefreshToken), None;
      }
      refreshTokens := refreshTokens[token := row.(consumed := Some(now))];
      sessions := sessions[id := session.(access := access, accessExpires := now + ttl.access, expires := now + ttl.refresh)];
      refreshTokens := refreshTokens[refresh := S.RefreshToken(id, now + ttl.refresh, None)];
      return None, Some(S.Issue(id, access, refresh));
    }

    /** EXISTS: the session has this refresh token, unconsumed. */
    method HasOpenToken(id: ID, refresh: ID) returns (found: bool)
      ensures found <==> refresh in refreshTokens && refreshTokens[refresh].session == id && refreshTokens[refresh].consumed.None?
    {
      found := false;
      var pending := refreshTokens.Keys;
      while pending != {}
        invariant pending <= refreshTokens.Keys
        invariant found <==> refresh in refreshTokens && refresh !in pending
                             && refreshTokens[refresh].session == id && refreshTokens[refresh].consumed.None?
        decreases pending
      {
        var hash :| hash in pending;
        if hash == refresh && refreshTokens[hash].session == id && refreshTokens[hash].consumed.None? {
          found := true;
        }
        pending := pending - {hash};
      }
    }

    /** UPDATE sessions, row by row, and how many rows it affects. */
    method RevokeSession(access: ID, refresh: ID, now: Time) returns (err: Option<Error>)
      modifies this`sessions
      ensures Outcome(View(), err, None) == Step(old(View()), Call.Logout(access, refresh), now, ttl)
    {
      ghost var before := View().sessions;
      var affected := 0;
      var pending := sessions.Keys;
      while pending != {}
        invariant pending <= sessions.Keys == before.rows.Keys && refreshTokens == before.tokens
        invariant forall id | id in sessions && id in pending :: sessions[id] == before.rows[id]
        invariant forall id | id in sessions && id !in pending ::
          sessions[id] == if S.LogsOut(before, id, access, refresh) then S.Ended(before.rows[id], now) else before.rows[id]
        invariant affected == 0 <==> forall id | id in sessions && id !in pending :: !S.LogsOut(before, id, access, refresh)
        invariant affected >= 0
        decreases pending
      {
        var id :| id in pending;
        var open := HasOpenToken(id, refresh);
        if sessions[id].access == access && sessions[id].revoked.None? && open {
          sessions := sessions[id := sessions[id].(revoked := Some(now))];
          affected := affected + 1;
        }
        pending := pending - {id};
      }
      assert sessions == S.Revoke(before, access, refresh, now).rows;
      if affected == 0 {
        assert sessions == before.rows;
        return Some(Unauthorized);
      }
      return None;
    }

    /** Some user of a live session with this access token, if there is one. */
    method FindUserByAccessToken(access: ID, now: Time) returns (user: Option<ID>)
      ensures user.Some? ==> exists id :: S.Live(View().sessions, id, access, now) && sessions[id].user == user.value
      ensures user.None? ==> !S.Accepted(View().sessions, access, now)
    {
      var pending := sessions.Keys;
      while pending != {}
        invariant pending <= sessions.Keys
        invariant forall id | id in sessions && id !in pending :: !S.Live(View().sessions, id, access, now)
        decreases pending
      {
        var id :| id in pending;
        if sessions[id].access == access && sessions[id].revoked.None?
           && sessions[id].accessExpires > now && sessions[id].expires > now {
          return Some(sessions[id].user);
        }
        pending := pending - {id};
      }
      return None;
    }

    method SignInGoogle(user: ID, identity: ID, subject: ID, email: ID, issue: S.Issue, now: Time)
      returns (err: Option<Error>, issued: Option<S.Issue>)
      requires A.UniqueIdentities(identities)
      modifies this
      ensures Outcome(View(), err, issued)
           == Step(old(View()), Call.SignInGoogle(user, identity, subject, email, issue), now, ttl)
    {
      hide A.UniqueIdentities, Find;
      var found := FindIdentity(A.Google, subject);
      var owner := user;
      if found.Some? {
        assert found.value in identities by { FoundIsThere(View().accounts, A.Google, subject); }
        owner := identities[found.value].user;
      } else {
        if exists u | u in users :: users[u].email == email {
          return Some(AccountLinkRequired), None;
        }
        users := users[user := A.User(email, true)];
        identities := identities[identity := A.Identity(user, A.Google, subject, None)];
      }
      InsertSession(owner, issue, now);
      return None, Some(issue);
    }

    method LinkGoogle(user: ID, identity: ID, subject: ID, email: ID, emailVerified: bool, now: Time)
      returns (err: Option<Error>)
      modifies this`users, this`identities
      ensures Outcome(View(), err, None)
           == Step(old(View()), Call.LinkGoogle(user, identity, subject, email, emailVerified), now, ttl)
    {
      if user !in users {
        return Some(UnknownUser);
      }
      var taken := exists i | i in identities ::
        identities[i].provider == A.Google && (identities[i].subject == subject || identities[i].user == user);
      assert taken <==> !A.CanLink(View().accounts, user, subject);
      if taken {
        return Some(IdentityAlreadyLinked);
      }
      identities := identities[identity := A.Identity(user, A.Google, subject, None)];
      if emailVerified && email == users[user].email {
        users := users[user := users[user].(verified := true)];
      }
      return None;
    }

    /** The providers of a user's rows: how many, and whether one is given. */
    method Providers(user: ID, provider: A.Provider) returns (count: nat, linked: bool)
      ensures count == |A.IdentitiesOf(View().accounts, user)|
      ensures linked <==> A.HasMethod(View().accounts, user, provider)
    {
      count, linked := 0, false;
      var pending := identities.Keys;
      ghost var counted: set<ID> := {};
      while pending != {}
        invariant pending <= identities.Keys
        invariant counted == A.IdentitiesOf(View().accounts, user) - pending && count == |counted|
        invariant linked <==> exists i | i in identities && i !in pending ::
          identities[i].user == user && identities[i].provider == provider
        decreases pending
      {
        var id :| id in pending;
        pending := pending - {id};
        if identities[id].user == user {
          count, counted := count + 1, counted + {id};
          linked := linked || identities[id].provider == provider;
        }
      }
      assert counted == A.IdentitiesOf(View().accounts, user);
    }

    method UnlinkAuthenticationMethod(user: ID, provider: A.Provider, now: Time) returns (err: Option<Error>)
      modifies this`identities
      ensures Outcome(View(), err, None) == Step(old(View()), Call.Unlink(user, provider), now, ttl)
    {
      hide A.IdentitiesOf, A.HasMethod;
      var count, linked := Providers(user, provider);
      if !linked {
        return Some(MethodNotLinked);
      }
      if count <= 1 {
        return Some(LastMethod);
      }
      DeleteIdentities(user, provider);
      return None;
    }

    method DeleteIdentities(user: ID, provider: A.Provider)
      modifies this`identities
      ensures View() == old(View()).(accounts := A.Unlinked(old(View()).accounts, user, provider))
    {
      ghost var before := identities;
      var pending := identities.Keys;
      while pending != {}
        invariant pending <= identities.Keys <= before.Keys
        invariant forall i | i in before ::
          i in identities <==> i in pending || !(before[i].user == user && before[i].provider == provider)
        invariant forall i | i in identities :: identities[i] == before[i]
        decreases pending
      {
        var id :| id in pending;
        pending := pending - {id};
        if identities[id].user == user && identities[id].provider == provider {
          identities := identities - {id};
        }
      }
      assert identities == A.Unlinked(A.Accounts(users, before), user, provider).identities;
    }

    /** SELECT EXISTS of a token of this user and purpose created after a time. */
    method HasRecentToken(user: ID, purpose: M.Purpose, since: Time) returns (recent: bool)
      ensures recent <==> exists h | h in emailTokens :: M.Of(emailTokens[h], user, purpose) && emailTokens[h].created > since
    {
      var pending := emailTokens.Keys;
      while pending != {}
        invariant pending <= emailTokens.Keys
        invariant forall h | h in emailTokens && h !in pending ::
          !(M.Of(emailTokens[h], user, purpose) && emailTokens[h].created > since)
        decreases pending
      {
        var h :| h in pending;
        if emailTokens[h].user == user && emailTokens[h].purpose == purpose && emailTokens[h].created > since {
          return true;
        }
        pending := pending - {h};
      }
      return false;
    }

    /** UPDATE email_tokens SET consumed_at for the unconsumed ones of this user and purpose, row by row. */
    method SpendTokens(user: ID, purpose: M.Purpose, now: Time)
      modifies this`emailTokens
      ensures emailTokens == M.Spent(old(emailTokens), user, purpose, now)
    {
      ghost var before := emailTokens;
      var pending := emailTokens.Keys;
      while pending != {}
        invariant pending <= emailTokens.Keys == before.Keys
        invariant forall h | h in pending :: emailTokens[h] == before[h]
        invariant forall h | h in before && h !in pending :: emailTokens[h] == M.Spent(before, user, purpose, now)[h]
        decreases pending
      {
        var h :| h in pending;
        var row := emailTokens[h];
        if row.user == user && row.purpose == purpose && row.consumed.None? {
          emailTokens := emailTokens[h := row.(consumed := Some(now))];
        }
        pending := pending - {h};
      }
      assert emailTokens == M.Spent(before, user, purpose, now);
    }

    method CreateEmailToken(user: ID, purpose: M.Purpose, email: ID, hash: ID, now: Time)
      returns (created: bool, err: Option<Error>)
      modifies this`emailTokens
      ensures Outcome(View(), err, None) == Step(old(View()), Call.SendToken(user, purpose, email, hash), now, ttl)
      ensures created <==> user in users && !M.InCooldown(old(emailTokens), user, purpose, now, EMAIL_COOLDOWN)
    {
      hide M.Spent;
      if user !in users {
        return false, Some(UnknownUser);
      }
      var recent := HasRecentToken(user, purpose, now - EMAIL_COOLDOWN);
      if recent {
        return false, None;
      }
      SpendTokens(user, purpose, now);
      emailTokens := emailTokens[hash := M.EmailToken(user, purpose, email, now, now + TokenLifetime(purpose), None)];
      return true, None;
    }

    /** consumeEmailToken */
    method ConsumeEmailToken(hash: ID, purpose: M.Purpose, now: Time) returns (token: Option<M.EmailToken>)
      modifies this`emailTokens
      ensures emailTokens == M.Consume(old(emailTokens), hash, purpose, now)
      ensures token == if M.Acceptable(old(emailTokens), hash, purpose, now) then Some(old(emailTokens)[hash]) else None
    {
      if hash !in emailTokens || emailTokens[hash].purpose != purpose || emailTokens[hash].consumed.Some?
         || emailTokens[hash].expires <= now {
        return None;
      }
      token := Some(emailTokens[hash]);
      emailTokens := emailTokens[hash := emailTokens[hash].(consumed := Some(now))];
    }

    method VerifyEmail(hash: ID, now: Time) returns (err: Option<Error>)
      modifies this`emailTokens, this`users
      ensures Outcome(View(), err, None) == Step(old(View()), Call.VerifyEmail(hash), now, ttl)
    {
      var found := ConsumeEmailToken(hash, M.ToVerifyEmail, now);
      if found.None? {
        return Some(InvalidToken);
      }
      var token := found.value;
      if token.user !in users || users[token.user].email != token.email {
        return Some(InvalidToken);
      }
      users := users[token.user := users[token.user].(verified := true)];
      return None;
    }

    method ResetPassword(hash: ID, secret: ID, now: Time) returns (err: Option<Error>)
      modifies this
      ensures Outcome(View(), err, None) == Step(old(View()), Call.ResetPassword(hash, secret), now, ttl)
    {
      var found := ConsumeEmailToken(hash, M.ToResetPassword, now);
      if found.None? {
        return Some(InvalidToken);
      }
      var token := found.value;
      if !exists i | i in identities ::
        identities[i].user == token.user && identities[i].provider == A.Password && identities[i].subject == token.email {
        return Some(InvalidToken);
      }
      identities := map i | i in identities ::
        if A.Resets(identities[i], token.user, token.email) then identities[i].(secret := Some(secret)) else identities[i];
      if token.user in users {
        users := users[token.user := users[token.user].(verified := true)];
      }
      sessions := map id | id in sessions ::
        if sessions[id].user == token.user && sessions[id].revoked.None? then sessions[id].(revoked := Some(now))
        else sessions[id];
      assert sessions == S.RevokeAllOf(old(View()).sessions, token.user, now).rows;
      SpendTokens(token.user, M.ToResetPassword, now);
      return None;
    }
  }

  lemma FoundIsThere(a: A.Accounts, provider: A.Provider, subject: ID)
    ensures Find(a, provider, subject).Some? ==> Find(a, provider, subject).value in a.identities
  {
  }
}
