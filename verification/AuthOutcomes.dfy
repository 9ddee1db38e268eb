/**
  When each call of the auth service succeeds, what it then changes row by row and field by field, and
  what it leaves alone; and how long a refresh token works.
*/
module AuthOutcomes {
  import opened Common
  import A = AuthAccounts
  import S = AuthSessions
  import M = AuthEmailTokens
  import opened AuthService
  import opened AuthTheorems

  // ---------- Sessions ----------

  /** One session was opened for a user, with both its tokens, and no other row changed. */
  predicate SessionOpened(s: S.Sessions, s': S.Sessions, issue: S.Issue, user: ID, now: Time, ttl: S.Lifetimes) {
    && s'.rows.Keys == s.rows.Keys + {issue.session} && s'.tokens.Keys == s.tokens.Keys + {issue.refresh}
    && s'.rows[issue.session] == S.Session(user, issue.access, now + ttl.access, now + ttl.refresh, None)
    && s'.tokens[issue.refresh] == S.RefreshToken(issue.session, now + ttl.refresh, None)
    && (forall id | id in s.rows && id != issue.session :: s'.rows[id] == s.rows[id])
    && forall token | token in s.tokens && token != issue.refresh :: s'.tokens[token] == s.tokens[token]
  }

  /** The token is unconsumed and in time, and so is its session. */
  predicate Good(s: S.Sessions, token: ID, now: Time) {
    && token in s.tokens && s.tokens[token].session in s.rows
    && s.tokens[token].consumed.None? && now < s.tokens[token].expires
    && s.rows[s.tokens[token].session].revoked.None? && now < s.rows[s.tokens[token].session].expires
  }

  predicate OneRowChanged(s: S.Sessions, s': S.Sessions, id: ID) {
    s'.rows.Keys == s.rows.Keys && forall other | other in s.rows && other != id :: s'.rows[other] == s.rows[other]
  }

  /**
    A refresh succeeds exactly for a good token. It then hands out the new pair, which is what the session
    holds from now on, and consumes the old token. Otherwise it ends the session of a token that is known,
    and does nothing at all for any other.
  */
  lemma RefreshOutcome(st: State, c: Call, now: Time, ttl: S.Lifetimes)
    requires Inv(st) && c.Refresh? && Enabled(st, c)
    ensures var r := Step(st.db, c, now, ttl); var s, s' := st.db.sessions, r.db.sessions;
            && r.db.accounts == st.db.accounts && r.db.mail == st.db.mail
            && (r.err.None? <==> Good(s, c.token, now))
            && (r.err.Some? ==> r.err == Some(InvalidRefreshToken) && r.issued.None? && s'.tokens == s.tokens)
            && (c.token !in s.tokens ==> s' == s)
            && (c.token in s.tokens ==>
                  var id := s.tokens[c.token].session;
                  && id in s.rows && OneRowChanged(s, s', id)
                  && if r.err.None? then
                       && r.issued == Some(S.Issue(id, c.access, c.refresh))
                       && s'.rows[id] == S.Session(s.rows[id].user, c.access, now + ttl.access, now + ttl.refresh, None)
                       && s'.tokens.Keys == s.tokens.Keys + {c.refresh} && c.refresh !in s.tokens
                       && s'.tokens[c.refresh] == S.RefreshToken(id, now + ttl.refresh, None)
                       && s'.tokens[c.token] == s.tokens[c.token].(consumed := Some(now))
                       && forall other | other in s.tokens && other != c.token :: s'.tokens[other] == s.tokens[other]
                     else
                       s'.rows[id] == s.rows[id].(revoked := if s.rows[id].revoked.Some? then s.rows[id].revoked else Some(now)))
  {
    hide A.Sound, M.Tidy, References, S.Distinct, S.Current, S.HasSession;
    var s := st.db.sessions;
    if c.token in s.tokens {
      TokenHasItsSession(s, st.log, c.token);
      S.FreshToken(s, st.log, S.Issue(s.tokens[c.token].session, c.access, c.refresh));
    }
    hide S.Consistent, S.HasToken;
  }

  lemma TokenHasItsSession(s: S.Sessions, log: seq<S.Issue>, token: ID)
    requires S.Recorded(s, log) && token in s.tokens
    ensures s.tokens[token].session in s.rows
  {
    assert S.HasToken(log, token);
  }

  /**
    Whatever is called later, the refresh token of a pair renews its session exactly until the refresh
    lifetime is over, a newer pair is issued for the session, or the session is ended.
  */
  lemma RefreshTokensWork(
    calls: seq<(Call, Time)>, ttl: S.Lifetimes, c: Call, now: Time, later: seq<(Call, Time)>, again: Call, t: Time)
    requires Possible(Init(), calls, ttl)
    requires var st := After(calls, ttl);
             && Enabled(st, c) && Step(st.db, c, now, ttl).issued.Some? && Possible(Apply(st, c, now, ttl), later, ttl)
             && again.Refresh? && again.token == Step(st.db, c, now, ttl).issued.value.refresh
             && Enabled(Run(Apply(st, c, now, ttl), later, ttl), again)
    ensures var st := After(calls, ttl);
            var st1 := Apply(st, c, now, ttl);
            var st2 := Run(st1, later, ttl);
            var id := Step(st.db, c, now, ttl).issued.value.session;
            && id in st2.db.sessions.rows
            && (Step(st2.db, again, t, ttl).err.None? <==>
                  && t < now + ttl.refresh && !S.IssuedSince(st2.log, |st1.log|, id)
                  && st2.db.sessions.rows[id].revoked.None?)
  {
    hide A.Sound, M.Tidy, S.Consistent, References, M.Continues, A.Continues, Earned, Good;
    Reached(calls, ttl);
    var st := After(calls, ttl);
    TokensAreIssued(st, c, now, ttl);
    ApplyKeeps(st, c, now, ttl);
    var st1 := Apply(st, c, now, ttl);
    RunKeeps(st1, later, ttl);
    var st2 := Run(st1, later, ttl);
    RefreshOutcome(st2, again, t, ttl);
    hide Step, Apply, Run, Possible, Enabled;
    GoodUntilSuperseded(st1, st2, |st.log|, t);
  }

  lemma GoodUntilSuperseded(st1: State, st2: State, i: nat, t: Time)
    requires Inv(st1) && Inv(st2) && S.Continues(st1.db.sessions, st1.log, st2.db.sessions, st2.log)
    requires |st1.log| == i + 1
    ensures var issue := st1.log[i];
            && issue.session in st1.db.sessions.rows && issue.session in st2.db.sessions.rows
            && (Good(st2.db.sessions, issue.refresh, t) <==>
                  && t < st1.db.sessions.rows[issue.session].expires
                  && !S.IssuedSince(st2.log, |st1.log|, issue.session)
                  && st2.db.sessions.rows[issue.session].revoked.None?)
  {
    hide A.Sound, M.Tidy, References, S.Distinct, S.HasSession, S.HasToken;
    assert st2.log[i] == st1.log[i];
    assert S.Superseded(st2.log, i) <==> S.IssuedSince(st2.log, i + 1, st1.log[i].session);
    assert !S.Superseded(st1.log, i);
    hide S.Superseded, S.IssuedSince;
  }

  /** A logout ends exactly the session that holds both tokens, and reports if there is none. */
  lemma LogoutOutcome(db: Db, c: Call, now: Time, ttl: S.Lifetimes, id: ID)
    requires c.Logout?
    ensures var r := Step(db, c, now, ttl); var s, s' := db.sessions, r.db.sessions;
            var holds := Holds(s, id, c.access, c.refresh);
            && r.db.accounts == db.accounts && r.db.mail == db.mail && s'.tokens == s.tokens && r.issued.None?
            && (id in s'.rows <==> id in s.rows)
            && (id in s.rows ==> s'.rows[id] == if holds then s.rows[id].(revoked := Some(now)) else s.rows[id])
            && (holds ==> r.err.None?) && (r.err.Some? ==> r.err == Some(Unauthorized))
    ensures Step(db, c, now, ttl).err.None? ==> exists k :: Holds(db.sessions, k, c.access, c.refresh)
  {
    if Step(db, c, now, ttl).err.None? {
      var k :| k in db.sessions.rows && S.LogsOut(db.sessions, k, c.access, c.refresh);
      assert Holds(db.sessions, k, c.access, c.refresh);
    }
    if Holds(db.sessions, id, c.access, c.refresh) {
      assert S.LogsOut(db.sessions, id, c.access, c.refresh);
    }
  }

  predicate Holds(s: S.Sessions, id: ID, access: ID, refresh: ID) {
    && id in s.rows && s.rows[id].access == access && s.rows[id].revoked.None?
    && refresh in s.tokens && s.tokens[refresh].session == id && s.tokens[refresh].consumed.None?
  }

  // ---------- Signing up and in ----------

  ghost predicate KnownAddress(a: A.Accounts, email: ID) {
    exists u :: u in a.users && a.users[u].email == email
  }

  ghost predicate HasIdentity(a: A.Accounts, user: ID, provider: A.Provider, subject: ID) {
    exists i :: i in a.identities && a.identities[i].user == user
             && a.identities[i].provider == provider && a.identities[i].subject == subject
  }

  /** A user and an identity were added, and no other row changed. */
  predicate UserAdded(a: A.Accounts, a': A.Accounts, user: ID, row: A.User, id: ID, identity: A.Identity) {
    && a'.users.Keys == a.users.Keys + {user} && a'.identities.Keys == a.identities.Keys + {id}
    && a'.users[user] == row && a'.identities[id] == identity
    && (forall u | u in a.users && u != user :: a'.users[u] == a.users[u])
    && forall i | i in a.identities && i != id :: a'.identities[i] == a.identities[i]
  }

  /** An address registers exactly if it is no user's and no password identity's, unverified and with the password. */
  lemma RegisterOutcome(db: Db, c: Call, now: Time, ttl: S.Lifetimes)
    requires c.Register?
    ensures var r := Step(db, c, now, ttl);
            && (r.err.None? <==> !KnownAddress(db.accounts, c.email) && forall u :: !HasIdentity(db.accounts, u, A.Password, c.email))
            && (if r.err.None? then
                  && r.issued == Some(c.issue) && r.db.mail == db.mail
                  && UserAdded(db.accounts, r.db.accounts, c.user, A.User(c.email, false), c.identity,
                               A.Identity(c.user, A.Password, c.email, Some(c.secret)))
                  && SessionOpened(db.sessions, r.db.sessions, c.issue, c.user, now, ttl)
                else r == Failed(db, EmailAlreadyRegistered))
  {
    if exists i | i in db.accounts.identities ::
      db.accounts.identities[i].provider == A.Password && db.accounts.identities[i].subject == c.email
    {
      var i :| i in db.accounts.identities
            && db.accounts.identities[i].provider == A.Password && db.accounts.identities[i].subject == c.email;
      assert HasIdentity(db.accounts, db.accounts.identities[i].user, A.Password, c.email);
    }
    if exists u :: HasIdentity(db.accounts, u, A.Password, c.email) {
      var u :| HasIdentity(db.accounts, u, A.Password, c.email);
    }
  }

  /** The offered password verifies against the hash of this user's password identity for the address. */
  ghost predicate PasswordOf(a: A.Accounts, user: ID, email: ID, verifies: ID -> bool) {
    exists i :: i in a.identities && a.identities[i].user == user && a.identities[i].provider == A.Password
             && a.identities[i].subject == email && a.identities[i].secret.Some? && verifies(a.identities[i].secret.value)
  }

  /** A login opens a session of the user whose password it is, and of nobody if it is nobody's. */
  lemma LoginOutcome(st: State, c: Call, now: Time, ttl: S.Lifetimes, user: ID)
    requires Inv(st) && c.Login?
    ensures var r := Step(st.db, c, now, ttl);
            && (PasswordOf(st.db.accounts, user, c.email, c.verifies) ==>
                  && r.err.None? && r.issued == Some(c.issue)
                  && r.db.accounts == st.db.accounts && r.db.mail == st.db.mail
                  && SessionOpened(st.db.sessions, r.db.sessions, c.issue, user, now, ttl))
            && (r.err.Some? ==> r == Failed(st.db, InvalidCredentials))
            && (r.err.None? ==> exists u :: PasswordOf(st.db.accounts, u, c.email, c.verifies))
  {
    hide S.Consistent, M.Tidy, References, A.UniqueEmails, A.Owned;
    var a := st.db.accounts;
    if PasswordOf(a, user, c.email, c.verifies) {
      var i :| i in a.identities && a.identities[i].user == user && a.identities[i].provider == A.Password
            && a.identities[i].subject == c.email && a.identities[i].secret.Some? && c.verifies(a.identities[i].secret.value);
      FoundIs(a, a, A.Password, c.email, i);
    }
    if Step(st.db, c, now, ttl).err.None? {
      var i := Find(a, A.Password, c.email).value;
      assert PasswordOf(a, a.identities[i].user, c.email, c.verifies);
    }
  }

  /** A Google subject signs its user in; an unknown one becomes a new user with a verified address, if that is free. */
  lemma SignInOutcome(st: State, c: Call, now: Time, ttl: S.Lifetimes, user: ID)
    requires Inv(st) && c.SignInGoogle?
    ensures var a := st.db.accounts; var r := Step(st.db, c, now, ttl);
            var known := exists u :: HasIdentity(a, u, A.Google, c.subject);
            && (HasIdentity(a, user, A.Google, c.subject) ==>
                  && r.err.None? && r.issued == Some(c.issue) && r.db.accounts == a && r.db.mail == st.db.mail
                  && SessionOpened(st.db.sessions, r.db.sessions, c.issue, user, now, ttl))
            && (!known ==>
                  if KnownAddress(a, c.email) then r == Failed(st.db, AccountLinkRequired)
                  else
                    && r.err.None? && r.issued == Some(c.issue) && r.db.mail == st.db.mail
                    && UserAdded(a, r.db.accounts, c.user, A.User(c.email, true), c.identity,
                                 A.Identity(c.user, A.Google, c.subject, None))
                    && SessionOpened(st.db.sessions, r.db.sessions, c.issue, c.user, now, ttl))
  {
    hide S.Consistent, M.Tidy, References, A.UniqueEmails, A.Owned;
    var a := st.db.accounts;
    if HasIdentity(a, user, A.Google, c.subject) {
      var i :| i in a.identities && a.identities[i].user == user
            && a.identities[i].provider == A.Google && a.identities[i].subject == c.subject;
      FoundIs(a, a, A.Google, c.subject, i);
    }
    if Find(a, A.Google, c.subject).Some? {
      var i := Find(a, A.Google, c.subject).value;
      assert HasIdentity(a, a.identities[i].user, A.Google, c.subject);
    }
  }

  // ---------- Identities ----------

  ghost predicate HasProvider(a: A.Accounts, user: ID, provider: A.Provider) {
    exists i :: i in a.identities && a.identities[i].user == user && a.identities[i].provider == provider
  }

  /** A link adds the subject exactly if it is nobody's and the user has none, and may verify the address. */
  lemma LinkOutcome(db: Db, c: Call, now: Time, ttl: S.Lifetimes)
    requires c.LinkGoogle?
    ensures var a := db.accounts; var r := Step(db, c, now, ttl);
            && (r.err.None? <==>
                  && c.user in a.users && !HasProvider(a, c.user, A.Google)
                  && forall u :: !HasIdentity(a, u, A.Google, c.subject))
            && (r.err.Some? ==> r == Failed(db, if c.user in a.users then IdentityAlreadyLinked else UnknownUser))
            && (r.err.None? ==>
                  && r.issued.None? && r.db.sessions == db.sessions && r.db.mail == db.mail
                  && UserAdded(a, r.db.accounts, c.user,
                               a.users[c.user].(verified := a.users[c.user].verified
                                                || (c.emailVerified && c.email == a.users[c.user].email)),
                               c.identity, A.Identity(c.user, A.Google, c.subject, None)))
  {
    var a := db.accounts;
    if A.SubjectTaken(a, A.Google, c.subject) {
      var i :| i in a.identities && a.identities[i].provider == A.Google && a.identities[i].subject == c.subject;
      assert HasIdentity(a, a.identities[i].user, A.Google, c.subject);
    }
    if exists u :: HasIdentity(a, u, A.Google, c.subject) {
      var u :| HasIdentity(a, u, A.Google, c.subject);
    }
    assert c.user in a.users ==> a.users.Keys + {c.user} == a.users.Keys;
  }

  /** An unlink takes away exactly that method of that user, if another one is left. */
  lemma UnlinkOutcome(st: State, c: Call, now: Time, ttl: S.Lifetimes, i: ID)
    requires Inv(st) && c.Unlink?
    ensures var a := st.db.accounts; var r := Step(st.db, c, now, ttl); var a' := r.db.accounts;
            && (r.err.None? <==>
                  HasProvider(a, c.user, c.provider)
                  && HasProvider(a, c.user, if c.provider.Google? then A.Password else A.Google))
            && (r.err.Some? ==>
                  r == Failed(st.db, if HasProvider(a, c.user, c.provider) then LastMethod else MethodNotLinked))
            && (r.err.None? ==>
                  && r.issued.None? && r.db.sessions == st.db.sessions && r.db.mail == st.db.mail && a'.users == a.users
                  && (i in a'.identities <==>
                        i in a.identities && !(a.identities[i].user == c.user && a.identities[i].provider == c.provider))
                  && (i in a'.identities ==> a'.identities[i] == a.identities[i]))
  {
    hide S.Consistent, M.Tidy, References, A.UniqueEmails, A.Owned;
    TwoMethods(st.db.accounts, c.user, c.provider);
  }

  lemma TwoMethods(a: A.Accounts, user: ID, provider: A.Provider)
    requires A.UniqueIdentities(a.identities)
    ensures HasProvider(a, user, provider) <==> A.HasMethod(a, user, provider)
    ensures HasProvider(a, user, provider) ==>
              (|A.IdentitiesOf(a, user)| > 1 <==> HasProvider(a, user, if provider.Google? then A.Password else A.Google))
  {
    if HasProvider(a, user, provider) {
      var i :| i in a.identities && a.identities[i].user == user && a.identities[i].provider == provider;
      var own := A.IdentitiesOf(a, user);
      assert i in own;
      if |own| > 1 {
        var others := own - {i};
        assert |others| > 0;
        var j :| j in others;
        assert a.identities[j].provider != provider;
        assert HasProvider(a, user, a.identities[j].provider);
      } else {
        assert own == {i} by {
          assert |own - {i}| == 0;
          assert own == (own - {i}) + {i};
        }
        assert forall j | j in a.identities && a.identities[j].user == user :: j in own;
      }
    }
  }

  // ---------- Email ----------

  ghost predicate SentSince(t: M.EmailTokens, user: ID, purpose: M.Purpose, since: Time) {
    exists h :: h in t && t[h].user == user && t[h].purpose == purpose && t[h].created > since
  }

  /** A minute after the last one a token is created, for a day or an hour, and replaces the open one; before that nothing is. */
  lemma SendTokenOutcome(db: Db, c: Call, now: Time, ttl: S.Lifetimes, h: ID)
    requires c.SendToken?
    ensures var t := db.mail; var r := Step(db, c, now, ttl); var t' := r.db.mail;
            && r.db.accounts == db.accounts && r.db.sessions == db.sessions && r.issued.None?
            && (r.err.None? <==> c.user in db.accounts.users)
            && (r.err.Some? ==> r == Failed(db, UnknownUser))
            && (r.err.None? && SentSince(t, c.user, c.purpose, now - 60) ==> t' == t)
            && (r.err.None? && !SentSince(t, c.user, c.purpose, now - 60) ==>
                  && c.hash in t'
                  && t'[c.hash] == M.EmailToken(
                       c.user, c.purpose, c.email, now, now + (if c.purpose.ToVerifyEmail? then 86400 else 3600), None)
                  && (h != c.hash ==> (h in t' <==> h in t))
                  && (h != c.hash && h in t ==>
                        t'[h] == if t[h].user == c.user && t[h].purpose == c.purpose && t[h].consumed.None?
                                 then t[h].(consumed := Some(now)) else t[h]))
  {
    assert M.InCooldown(db.mail, c.user, c.purpose, now, EMAIL_COOLDOWN) <==> SentSince(db.mail, c.user, c.purpose, now - 60) by {
      if SentSince(db.mail, c.user, c.purpose, now - 60) {
        var k :| k in db.mail && db.mail[k].user == c.user && db.mail[k].purpose == c.purpose && db.mail[k].created > now - 60;
        assert M.Of(db.mail[k], c.user, c.purpose);
      }
    }
    hide M.InCooldown;
  }

  predicate GoodToken(t: M.EmailTokens, hash: ID, purpose: M.Purpose, now: Time) {
    hash in t && t[hash].purpose == purpose && t[hash].consumed.None? && now < t[hash].expires
  }

  predicate OneUserChanged(a: A.Accounts, a': A.Accounts, user: ID, row: A.User) {
    && a'.users.Keys == a.users.Keys && user in a.users && a'.users[user] == row
    && forall u | u in a.users && u != user :: a'.users[u] == a.users[u]
  }

  /** A good token is spent, and verifies the address of its user if it was sent there. */
  lemma VerifyOutcome(db: Db, c: Call, now: Time, ttl: S.Lifetimes, h: ID)
    requires c.VerifyEmail?
    ensures var t := db.mail; var r := Step(db, c, now, ttl); var t' := r.db.mail;
            var good := GoodToken(t, c.hash, M.ToVerifyEmail, now);
            var matches := good && t[c.hash].user in db.accounts.users
                        && db.accounts.users[t[c.hash].user].email == t[c.hash].email;
            && r.issued.None? && r.db.sessions == db.sessions && r.db.accounts.identities == db.accounts.identities
            && (r.err.None? <==> matches) && (r.err.Some? ==> r.err == Some(InvalidToken))
            && t'.Keys == t.Keys
            && (h in t ==> t'[h] == if good && h == c.hash then t[h].(consumed := Some(now)) else t[h])
            && (!matches ==> r.db.accounts == db.accounts)
            && (matches ==> OneUserChanged(db.accounts, r.db.accounts, t[c.hash].user,
                                           db.accounts.users[t[c.hash].user].(verified := true)))
  {
  }

  /**
    A good token is spent. If its user has a password at that address, the password is replaced, the address
    is verified, every session of the user is ended and every open reset token spent.
  */
  lemma ResetOutcome(st: State, c: Call, now: Time, ttl: S.Lifetimes, i: ID, id: ID, h: ID)
    requires Inv(st) && c.ResetPassword?
    ensures var db := st.db; var t := db.mail; var a := db.accounts;
            var r := Step(db, c, now, ttl); var t', a', s' := r.db.mail, r.db.accounts, r.db.sessions;
            var good := GoodToken(t, c.hash, M.ToResetPassword, now);
            var matches := good && HasIdentity(a, t[c.hash].user, A.Password, t[c.hash].email);
            && r.issued.None? && (r.err.None? <==> matches) && (r.err.Some? ==> r.err == Some(InvalidToken))
            && t'.Keys == t.Keys && a'.identities.Keys == a.identities.Keys
            && s'.rows.Keys == db.sessions.rows.Keys && s'.tokens == db.sessions.tokens
            && (h in t ==>
                  t'[h] == if good && t[h].consumed.None?
                              && (h == c.hash || (matches && t[h].user == t[c.hash].user && t[h].purpose.ToResetPassword?))
                           then t[h].(consumed := Some(now)) else t[h])
            && (!matches ==> a' == a && s' == db.sessions)
            && (matches ==>
                  && var user := t[c.hash].user;
                  && OneUserChanged(a, a', user, a.users[user].(verified := true))
                  && (i in a.identities ==>
                        a'.identities[i] ==
                        if a.identities[i].user == user && a.identities[i].provider == A.Password
                           && a.identities[i].subject == t[c.hash].email
                        then a.identities[i].(secret := Some(c.secret)) else a.identities[i])
                  && (id in s'.rows ==>
                        s'.rows[id] == if db.sessions.rows[id].user == user && db.sessions.rows[id].revoked.None?
                                       then db.sessions.rows[id].(revoked := Some(now)) else db.sessions.rows[id]))
  {
    hide S.Consistent, M.Tidy, A.UniqueEmails, A.UniqueIdentities;
    var a, t := st.db.accounts, st.db.mail;
    if GoodToken(t, c.hash, M.ToResetPassword, now) {
      assert HasIdentity(a, t[c.hash].user, A.Password, t[c.hash].email) <==>
             exists k | k in a.identities :: A.Resets(a.identities[k], t[c.hash].user, t[c.hash].email) by {
        if HasIdentity(a, t[c.hash].user, A.Password, t[c.hash].email) {
          var k :| k in a.identities && a.identities[k].user == t[c.hash].user
                && a.identities[k].provider == A.Password && a.identities[k].subject == t[c.hash].email;
          assert A.Resets(a.identities[k], t[c.hash].user, t[c.hash].email);
        }
      }
    }
  }
}
