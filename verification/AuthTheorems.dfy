/** What holds of the auth tables in every state that any run of calls can reach. */
module AuthTheorems {
  import opened Common
  import A = AuthAccounts
  import S = AuthSessions
  import M = AuthEmailTokens
  import opened AuthService

  ghost function After(calls: seq<(Call, Time)>, ttl: S.Lifetimes): State {
    Run(Init(), calls, ttl)
  }

  lemma Reached(calls: seq<(Call, Time)>, ttl: S.Lifetimes)
    requires Possible(Init(), calls, ttl)
    ensures Inv(After(calls, ttl))
  {
    hide Inv;
    InitInv();
    RunKeeps(Init(), calls, ttl);
  }

  // ---------- Sessions ----------

  /** Each session has exactly one unconsumed refresh token, and it expires with its session. */
  lemma OneRefreshToken(calls: seq<(Call, Time)>, ttl: S.Lifetimes, id: ID)
    requires Possible(Init(), calls, ttl) && id in After(calls, ttl).db.sessions.rows
    ensures var s := After(calls, ttl).db.sessions;
            exists token | token in s.tokens ::
              && s.tokens[token].session == id && s.tokens[token].consumed.None?
              && s.tokens[token].expires == s.rows[id].expires
              && forall other | other in s.tokens && s.tokens[other].session == id && s.tokens[other].consumed.None? ::
                   other == token
  {
    hide S.Consistent;
    Reached(calls, ttl);
    var st := After(calls, ttl);
    var token := S.OneRefreshToken(st.db.sessions, st.log, id);
  }

  /** An access token works exactly while it is the last one issued for a session that is alive and in time. */
  lemma AcceptedIffLatest(calls: seq<(Call, Time)>, ttl: S.Lifetimes, i: nat, now: Time)
    requires Possible(Init(), calls, ttl) && i < |After(calls, ttl).log|
    ensures var st := After(calls, ttl);
            var id := st.log[i].session;
            id in st.db.sessions.rows &&
            var row := st.db.sessions.rows[id];
            S.Accepted(st.db.sessions, st.log[i].access, now) <==>
              && (forall j | i < j < |st.log| :: st.log[j].session != id)
              && row.revoked.None? && now < row.accessExpires && now < row.expires
  {
    Reached(calls, ttl);
    var st := After(calls, ttl);
    S.AcceptedIffLatest(st.db.sessions, st.log, i, now);
  }

  /** Nothing ever issued for this session works, or will. */
  ghost predicate Dead(st: State, id: ID) {
    forall i, t | 0 <= i < |st.log| && st.log[i].session == id ::
      !S.Accepted(st.db.sessions, st.log[i].access, t) && S.Renewed(st.db.sessions, st.log[i].refresh, t).None?
  }

  ghost predicate DeadSince(st: State, id: ID, issued: nat) {
    Dead(st, id) && forall i | issued <= i < |st.log| :: st.log[i].session != id
  }

  lemma EndedStaysDead(st: State, calls: seq<(Call, Time)>, ttl: S.Lifetimes, id: ID)
    requires Inv(st) && Possible(st, calls, ttl)
    requires id in st.db.sessions.rows && st.db.sessions.rows[id].revoked.Some?
    ensures DeadSince(Run(st, calls, ttl), id, |st.log|)
  {
    hide Apply, Enabled, A.Sound, M.Tidy, S.Consistent, S.Continues, M.Continues, A.Continues, References;
    RunKeeps(st, calls, ttl);
    var st' := Run(st, calls, ttl);
    S.EndedForGood(st.db.sessions, st.log, st'.db.sessions, st'.log, id);
  }

  /**
    Presenting a refresh token that was already consumed, or is expired, is refused and ends its
    session for good: whatever is called later, no token ever issued for it works.
  */
  lemma ReplayEndsTheSession(
    calls: seq<(Call, Time)>, ttl: S.Lifetimes, c: Call, now: Time, later: seq<(Call, Time)>)
    requires Possible(Init(), calls, ttl) && c.Refresh?
    requires var st := After(calls, ttl);
             && Enabled(st, c) && Possible(Apply(st, c, now, ttl), later, ttl) && c.token in st.db.sessions.tokens
             && (st.db.sessions.tokens[c.token].consumed.Some? || now >= st.db.sessions.tokens[c.token].expires)
    ensures var st := After(calls, ttl);
            && Step(st.db, c, now, ttl).err == Some(InvalidRefreshToken)
            && DeadSince(Run(Apply(st, c, now, ttl), later, ttl), st.db.sessions.tokens[c.token].session, |st.log|)
  {
    hide A.Sound, M.Tidy, S.Distinct, S.Recorded, S.Current, References;
    Reached(calls, ttl);
    var st := After(calls, ttl);
    S.RotateSpendsOrEnds(st.db.sessions, st.log, c.token, c.access, c.refresh, now, ttl);
    ApplyKeeps(st, c, now, ttl);
    EndedStaysDead(Apply(st, c, now, ttl), later, ttl, st.db.sessions.tokens[c.token].session);
  }

  /** A refresh token renews its session at most once; the second attempt is refused. */
  lemma RefreshWorksOnce(
    calls: seq<(Call, Time)>, ttl: S.Lifetimes, c: Call, now: Time, later: seq<(Call, Time)>, again: Call, second: Time)
    requires Possible(Init(), calls, ttl) && c.Refresh? && again.Refresh? && again.token == c.token
    requires var st := After(calls, ttl);
             && Enabled(st, c) && Step(st.db, c, now, ttl).err.None?
             && Possible(Apply(st, c, now, ttl), later, ttl)
    ensures Step(Run(Apply(After(calls, ttl), c, now, ttl), later, ttl).db, again, second, ttl).err == Some(InvalidRefreshToken)
  {
    hide A.Sound, M.Tidy, S.Distinct, S.Recorded, S.Current, References;
    Reached(calls, ttl);
    var st := After(calls, ttl);
    S.RotateSpendsOrEnds(st.db.sessions, st.log, c.token, c.access, c.refresh, now, ttl);
    ApplyKeeps(st, c, now, ttl);
    RunKeeps(Apply(st, c, now, ttl), later, ttl);
  }

  /** A successful password reset leaves none of the sessions the user had alive, then or ever after. */
  lemma ResetEndsEverySession(
    calls: seq<(Call, Time)>, ttl: S.Lifetimes, c: Call, now: Time, later: seq<(Call, Time)>, id: ID)
    requires Possible(Init(), calls, ttl) && c.ResetPassword?
    requires var st := After(calls, ttl);
             && Step(st.db, c, now, ttl).err.None? && Possible(Apply(st, c, now, ttl), later, ttl)
             && id in st.db.sessions.rows && st.db.sessions.rows[id].user == st.db.mail[c.hash].user
    ensures DeadSince(Run(Apply(After(calls, ttl), c, now, ttl), later, ttl), id, |After(calls, ttl).log|)
  {
    hide A.Sound, M.Tidy, S.Consistent, References;
    Reached(calls, ttl);
    var st := After(calls, ttl);
    ApplyKeeps(st, c, now, ttl);
    EndedStaysDead(Apply(st, c, now, ttl), later, ttl, id);
  }

  // ---------- Email tokens ----------

  /** Two tokens of one user and purpose are at least the cooldown apart, and one of them at most is unconsumed. */
  lemma EmailTokensAreSpaced(calls: seq<(Call, Time)>, ttl: S.Lifetimes, h: ID, k: ID)
    requires Possible(Init(), calls, ttl)
    requires var t := After(calls, ttl).db.mail;
             h in t && k in t && h != k && t[h].user == t[k].user && t[h].purpose == t[k].purpose
    ensures var t := After(calls, ttl).db.mail;
            && (t[h].created + EMAIL_COOLDOWN <= t[k].created || t[k].created + EMAIL_COOLDOWN <= t[h].created)
            && (t[h].consumed.Some? || t[k].consumed.Some?)
  {
    hide A.Sound, S.Consistent, References;
    Reached(calls, ttl);
  }

  /** So n tokens take at least n - 1 cooldowns. */
  lemma EmailTokensPerSpan(
    calls: seq<(Call, Time)>, ttl: S.Lifetimes, user: ID, purpose: M.Purpose, from: Time, until: Time)
    requires Possible(Init(), calls, ttl) && from <= until
    ensures (|M.Between(After(calls, ttl).db.mail, user, purpose, from, until)| - 1) * EMAIL_COOLDOWN <= until - from
  {
    hide A.Sound, S.Consistent, References;
    Reached(calls, ttl);
    M.AtMostPerSpan(After(calls, ttl).db.mail, user, purpose, from, until, EMAIL_COOLDOWN);
  }

  /** The hash a call presents and the purpose it presents it for. */
  ghost predicate Presents(c: Call, hash: ID, purpose: M.Purpose) {
    || (c == Call.VerifyEmail(hash) && purpose == M.ToVerifyEmail)
    || (c.ResetPassword? && c.hash == hash && purpose == M.ToResetPassword)
  }

  /**
    A token is accepted for its own purpose only and before it expires, and once presented in time
    for that purpose it is refused ever after, for either purpose and without any effect.
  */
  lemma EmailTokenWorksOnce(
    calls: seq<(Call, Time)>, ttl: S.Lifetimes, c: Call, now: Time, later: seq<(Call, Time)>,
    again: Call, second: Time, hash: ID, purpose: M.Purpose, purpose': M.Purpose)
    requires Possible(Init(), calls, ttl) && Presents(c, hash, purpose) && Presents(again, hash, purpose')
    requires Possible(Apply(After(calls, ttl), c, now, ttl), later, ttl)
    ensures var st := After(calls, ttl);
            Step(st.db, c, now, ttl).err.None? ==>
              && hash in st.db.mail && st.db.mail[hash].purpose == purpose
              && now < st.db.mail[hash].expires && st.db.mail[hash].consumed.None?
    ensures var st := After(calls, ttl);
            var st' := Run(Apply(st, c, now, ttl), later, ttl);
            Step(st.db, c, now, ttl).db != st.db ==> Step(st'.db, again, second, ttl) == Failed(st'.db, InvalidToken)
  {
    hide A.Sound, M.Tidy, S.Consistent, References, S.Continues, A.Continues;
    Reached(calls, ttl);
    var st := After(calls, ttl);
    ApplyKeeps(st, c, now, ttl);
    var st1 := Apply(st, c, now, ttl);
    RunKeeps(st1, later, ttl);
    if Step(st.db, c, now, ttl).db != st.db {
      assert M.Acceptable(st.db.mail, hash, purpose, now);
      assert st1.db.mail[hash].consumed.Some?;
      M.NeverAgain(st1.db.mail, Run(st1, later, ttl).db.mail, hash, purpose', second);
    }
  }

  // ---------- Identities ----------

  /** Every user keeps a way to sign in, one per provider at most, and shares none with anybody. */
  lemma IdentitiesNeverRunOut(calls: seq<(Call, Time)>, ttl: S.Lifetimes)
    requires Possible(Init(), calls, ttl)
    ensures var a := After(calls, ttl).db.accounts;
            && (forall u | u in a.users :: exists i | i in a.identities :: a.identities[i].user == u)
            && (forall i | i in a.identities :: a.identities[i].user in a.users)
            && forall i, j | i in a.identities && j in a.identities && i != j
                 && a.identities[i].provider == a.identities[j].provider ::
                 a.identities[i].user != a.identities[j].user && a.identities[i].subject != a.identities[j].subject
  {
    hide M.Tidy, S.Consistent, References;
    Reached(calls, ttl);
    var a := After(calls, ttl).db.accounts;
    forall u | u in a.users
      ensures exists i | i in a.identities :: a.identities[i].user == u
    {
      var i :| i in A.IdentitiesOf(a, u);
      assert a.identities[i].user == u;
    }
  }

  predicate Links(c: Call, user: ID) {
    c.LinkGoogle? && c.user == user
  }

  lemma OneCallAddsNoSubject(st: State, c: Call, now: Time, ttl: S.Lifetimes, user: ID)
    requires Inv(st) && Enabled(st, c) && !Links(c, user) && user in st.db.accounts.users
    ensures A.GoogleSubjects(Apply(st, c, now, ttl).db.accounts, user) <= A.GoogleSubjects(st.db.accounts, user)
  {
    hide Inv, FreshIssue, S.Rotate, S.Revoke, S.RevokeAllOf, S.Open, M.Consume, M.Create, M.Spent, S.Renewed, S.LogsOut;
    var a, a' := st.db.accounts, Apply(st, c, now, ttl).db.accounts;
    forall i | i in a'.identities && a'.identities[i].user == user && a'.identities[i].provider == A.Google
      ensures i in a.identities && a.identities[i].(secret := a'.identities[i].secret) == a'.identities[i]
    {
    }
  }

  lemma {:induction false} NoLinkNoSubject(st: State, calls: seq<(Call, Time)>, ttl: S.Lifetimes, user: ID)
    requires Inv(st) && Possible(st, calls, ttl) && user in st.db.accounts.users
    requires forall k | 0 <= k < |calls| :: !Links(calls[k].0, user)
    ensures A.GoogleSubjects(Run(st, calls, ttl).db.accounts, user) <= A.GoogleSubjects(st.db.accounts, user)
    decreases |calls|
  {
    hide Inv, Enabled, Apply, A.GoogleSubjects;
    if calls != [] {
      ApplyKeeps(st, calls[0].0, calls[0].1, ttl);
      OneCallAddsNoSubject(st, calls[0].0, calls[0].1, ttl, user);
      NoLinkNoSubject(Apply(st, calls[0].0, calls[0].1, ttl), calls[1..], ttl, user);
    }
  }

  /** Only an explicit link gives an existing user a Google subject. */
  lemma OnlyLinkAddsGoogle(
    calls: seq<(Call, Time)>, later: seq<(Call, Time)>, ttl: S.Lifetimes, user: ID)
    requires Possible(Init(), calls, ttl) && Possible(After(calls, ttl), later, ttl)
    requires user in After(calls, ttl).db.accounts.users
    requires forall k | 0 <= k < |later| :: !Links(later[k].0, user)
    ensures A.GoogleSubjects(Run(After(calls, ttl), later, ttl).db.accounts, user)
         <= A.GoogleSubjects(After(calls, ttl).db.accounts, user)
  {
    hide Inv, A.GoogleSubjects;
    Reached(calls, ttl);
    NoLinkNoSubject(After(calls, ttl), later, ttl, user);
  }

  // ---------- What the calls are for ----------

  /** The user whose session a call opens or renews. */
  ghost predicate Earned(db: Db, c: Call, db': Db, session: ID, user: ID) {
    match c
    case Register(newcomer, _, email, _, _) =>
      user == newcomer && newcomer in db'.accounts.users && db'.accounts.users[newcomer].email == email
    case Login(email, verifies, _) =>
      exists secret :: verifies(secret) && exists i | i in db.accounts.identities ::
        db.accounts.identities[i] == A.Identity(user, A.Password, email, Some(secret))
    case Refresh(token, _, _) =>
      && token in db.sessions.tokens && db.sessions.tokens[token].session == session
      && session in db.sessions.rows && db.sessions.rows[session].user == user
    case SignInGoogle(_, _, subject, _, _) =>
      exists i | i in db'.accounts.identities ::
        db'.accounts.identities[i] == A.Identity(user, A.Google, subject, None)
    case _ => false
  }

  /** What a call hands out belongs to a session of the right user, with the lifetimes from now on. */
  lemma TokensAreIssued(st: State, c: Call, now: Time, ttl: S.Lifetimes)
    requires Inv(st) && Enabled(st, c) && Step(st.db, c, now, ttl).issued.Some?
    ensures var r := Step(st.db, c, now, ttl); var issue := r.issued.value;
            && issue.session in r.db.sessions.rows
            && var row := r.db.sessions.rows[issue.session];
               && Earned(st.db, c, r.db, issue.session, row.user) && row.revoked.None?
               && row.accessExpires == now + ttl.access && row.expires == now + ttl.refresh
  {
    hide S.Consistent, M.Tidy, A.UniqueEmails, A.UniqueIdentities, References, S.Revoke, S.RevokeAllOf;
    var r := Step(st.db, c, now, ttl);
    match c
    case Login(email, verifies, issue) =>
      var i := Find(st.db.accounts, A.Password, email).value;
      var row := st.db.accounts.identities[i];
      assert row == A.Identity(row.user, A.Password, email, Some(row.secret.value));
    case SignInGoogle(user, identity, subject, email, issue) =>
      if Find(st.db.accounts, A.Google, subject).Some? {
        var i := Find(st.db.accounts, A.Google, subject).value;
        var row := st.db.accounts.identities[i];
        assert row == A.Identity(row.user, A.Google, subject, None);
      } else {
        assert r.db.accounts.identities[identity] == A.Identity(user, A.Google, subject, None);
      }
    case _ =>
  }

  /**
    A pair of tokens goes to the session of the user who registered, knew the password, held the refresh
    token or owns the Google subject. Whatever is called later, its access token works exactly until its
    lifetime is over, a newer pair is issued for the session, or the session is ended.
  */
  lemma IssuedTokensWork(
    calls: seq<(Call, Time)>, ttl: S.Lifetimes, c: Call, now: Time, later: seq<(Call, Time)>, t: Time)
    requires Possible(Init(), calls, ttl) && ttl.Valid()
    requires var st := After(calls, ttl);
             && Enabled(st, c) && Step(st.db, c, now, ttl).issued.Some? && Possible(Apply(st, c, now, ttl), later, ttl)
    ensures var st := After(calls, ttl);
            var st1 := Apply(st, c, now, ttl);
            var st2 := Run(st1, later, ttl);
            var issue := Step(st.db, c, now, ttl).issued.value;
            && issue.session in st1.db.sessions.rows && issue.session in st2.db.sessions.rows
            && Earned(st.db, c, st1.db, issue.session, st1.db.sessions.rows[issue.session].user)
            && st2.db.sessions.rows[issue.session].user == st1.db.sessions.rows[issue.session].user
            && (S.Accepted(st2.db.sessions, issue.access, t) <==>
                  && t < now + ttl.access
                  && !S.IssuedSince(st2.log, |st1.log|, issue.session)
                  && st2.db.sessions.rows[issue.session].revoked.None?)
  {
    hide A.Sound, M.Tidy, S.Consistent, References, M.Continues, A.Continues, Earned;
    Reached(calls, ttl);
    var st := After(calls, ttl);
    TokensAreIssued(st, c, now, ttl);
    ApplyKeeps(st, c, now, ttl);
    var st1 := Apply(st, c, now, ttl);
    RunKeeps(st1, later, ttl);
    hide Step, Apply, Run, Possible, Enabled;
    WorksUntilSuperseded(st1, Run(st1, later, ttl), |st.log|, t);
  }

  /** The last pair issued in a state, seen from a later one. */
  lemma WorksUntilSuperseded(st1: State, st2: State, i: nat, t: Time)
    requires Inv(st1) && Inv(st2) && S.Continues(st1.db.sessions, st1.log, st2.db.sessions, st2.log)
    requires |st1.log| == i + 1
    ensures var issue := st1.log[i];
            && issue.session in st1.db.sessions.rows && issue.session in st2.db.sessions.rows
            && (S.Accepted(st2.db.sessions, issue.access, t) <==>
                  && t < st1.db.sessions.rows[issue.session].accessExpires
                  && t < st1.db.sessions.rows[issue.session].expires
                  && !S.IssuedSince(st2.log, |st1.log|, issue.session)
                  && st2.db.sessions.rows[issue.session].revoked.None?)
  {
    hide A.Sound, M.Tidy, References, S.Distinct, S.HasSession, S.HasToken;
    assert st2.log[i] == st1.log[i];
    S.AcceptedIffLatest(st2.db.sessions, st2.log, i, t);
    assert S.Superseded(st2.log, i) <==> S.IssuedSince(st2.log, i + 1, st1.log[i].session);
    assert !S.Superseded(st1.log, i);
    hide S.Superseded, S.IssuedSince, S.Accepted;
  }

  /** After a reset a password signs in at that address exactly when it verifies against the new hash. */
  lemma ResetChangesThePassword(st: State, c: Call, now: Time, ttl: S.Lifetimes, login: Call, second: Time)
    requires Inv(st) && c.ResetPassword? && Step(st.db, c, now, ttl).err.None?
    requires login.Login? && c.hash in st.db.mail && login.email == st.db.mail[c.hash].email
    ensures Step(Step(st.db, c, now, ttl).db, login, second, ttl).err.None? <==> login.verifies(c.secret)
  {
    hide S.Consistent, M.Tidy, A.UniqueEmails, References, S.Open, S.RevokeAllOf, M.Consume, M.Spent, A.Owned;
    var a := st.db.accounts;
    var token := st.db.mail[c.hash];
    var a' := Step(st.db, c, now, ttl).db.accounts;
    var i :| i in a.identities && A.Resets(a.identities[i], token.user, token.email);
    assert i in a'.identities && a'.identities[i].secret == Some(c.secret);
    FoundIs(a, a', A.Password, token.email, i);
  }

  lemma FoundIs(a: A.Accounts, a': A.Accounts, provider: A.Provider, subject: ID, i: ID)
    requires A.UniqueIdentities(a.identities) && i in a.identities && i in a'.identities
    requires forall j | j in a'.identities ::
      j in a.identities && a'.identities[j].(secret := a.identities[j].secret) == a.identities[j]
    requires a.identities[i].provider == provider && a.identities[i].subject == subject
    ensures Find(a', provider, subject) == Some(i)
  {
    assert a'.identities[i].provider == provider && a'.identities[i].subject == subject;
    var j := Find(a', provider, subject);
    assert j.Some?;
    assert a.identities[j.value].provider == provider && a.identities[j.value].subject == subject;
  }

  /** What proves that an address is its user's. */
  ghost predicate Proves(db: Db, c: Call, now: Time, user: ID) {
    match c
    case SignInGoogle(newcomer, _, _, email, _) => user == newcomer && user !in db.accounts.users
    case LinkGoogle(linking, _, _, email, emailVerified) =>
      user == linking && user in db.accounts.users && emailVerified && email == db.accounts.users[user].email
    case VerifyEmail(hash) =>
      && M.Acceptable(db.mail, hash, M.ToVerifyEmail, now) && db.mail[hash].user == user
      && user in db.accounts.users && db.mail[hash].email == db.accounts.users[user].email
    case ResetPassword(hash, _) =>
      M.Acceptable(db.mail, hash, M.ToResetPassword, now) && db.mail[hash].user == user
    case _ => false
  }

  lemma OneCallVerifiesByProof(st: State, c: Call, now: Time, ttl: S.Lifetimes, user: ID)
    requires Inv(st) && Enabled(st, c)
    ensures IsVerified(Apply(st, c, now, ttl), user) ==> IsVerified(st, user) || Proves(st.db, c, now, user)
    ensures IsVerified(st, user) ==> IsVerified(Apply(st, c, now, ttl), user)
  {
    hide Inv, FreshIssue, S.Rotate, S.Revoke, S.RevokeAllOf, S.Open, M.Consume, M.Create, M.Spent, S.Renewed, S.LogsOut, Find;
  }

  predicate IsVerified(st: State, user: ID) {
    user in st.db.accounts.users && st.db.accounts.users[user].verified
  }

  /** Some call of a run proves it. */
  ghost predicate ProvedDuring(st: State, calls: seq<(Call, Time)>, ttl: S.Lifetimes, user: ID)
    decreases |calls|
  {
    calls != [] &&
    (Proves(st.db, calls[0].0, calls[0].1, user)
     || ProvedDuring(Apply(st, calls[0].0, calls[0].1, ttl), calls[1..], ttl, user))
  }

  lemma {:induction false} VerifiedDuring(st: State, calls: seq<(Call, Time)>, ttl: S.Lifetimes, user: ID)
    requires Inv(st) && Possible(st, calls, ttl)
    ensures IsVerified(Run(st, calls, ttl), user) ==> IsVerified(st, user) || ProvedDuring(st, calls, ttl, user)
    ensures IsVerified(st, user) ==> IsVerified(Run(st, calls, ttl), user)
    decreases |calls|
  {
    hide Inv, Enabled, Apply, Proves, IsVerified;
    if calls != [] {
      ApplyKeeps(st, calls[0].0, calls[0].1, ttl);
      OneCallVerifiesByProof(st, calls[0].0, calls[0].1, ttl, user);
      VerifiedDuring(Apply(st, calls[0].0, calls[0].1, ttl), calls[1..], ttl, user);
    }
  }

  /** An address is verified only if some call in the run proved it, and never unverified again. */
  lemma VerifiedOnlyByProof(calls: seq<(Call, Time)>, later: seq<(Call, Time)>, ttl: S.Lifetimes, user: ID)
    requires Possible(Init(), calls, ttl) && Possible(After(calls, ttl), later, ttl)
    ensures IsVerified(After(calls, ttl), user) ==> ProvedDuring(Init(), calls, ttl, user)
    ensures IsVerified(After(calls, ttl), user) ==> IsVerified(Run(After(calls, ttl), later, ttl), user)
  {
    hide Inv;
    InitInv();
    Reached(calls, ttl);
    VerifiedDuring(Init(), calls, ttl, user);
    VerifiedDuring(After(calls, ttl), later, ttl, user);
  }
}
