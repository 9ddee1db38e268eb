/**
  The calls of the auth service, each one transaction on the tables of accounts, sessions and
  email tokens, and their runs.
*/
module AuthService {
  import opened Common
  import A = AuthAccounts
  import S = AuthSessions
  import M = AuthEmailTokens

  datatype Db = Db(accounts: A.Accounts, sessions: S.Sessions, mail: M.EmailTokens)

  datatype Error =
    | EmailAlreadyRegistered | InvalidCredentials | InvalidRefreshToken | Unauthorized | AccountLinkRequired
    | IdentityAlreadyLinked | MethodNotLinked | LastMethod | InvalidToken | UnknownUser

  const EMAIL_COOLDOWN: Time := 60

  function TokenLifetime(purpose: M.Purpose): Time {
    match purpose
    case ToVerifyEmail => 24 * 60 * 60
    case ToResetPassword => 60 * 60
  }

  /**
    IDs, hashes and tokens in a call are the fresh ones its service drew. A login says of every
    hash whether the offered password verifies against it; a secret is such a hash.
  */
  datatype Call =
    | Register(user: ID, identity: ID, email: ID, secret: ID, issue: S.Issue)
    | Login(email: ID, verifies: ID -> bool, issue: S.Issue)
    | Refresh(token: ID, access: ID, refresh: ID)
    | Logout(access: ID, refresh: ID)
    | SignInGoogle(user: ID, identity: ID, subject: ID, email: ID, issue: S.Issue)
    | LinkGoogle(user: ID, identity: ID, subject: ID, email: ID, emailVerified: bool)
    | Unlink(user: ID, provider: A.Provider)
    | SendToken(user: ID, purpose: M.Purpose, email: ID, hash: ID)
    | VerifyEmail(hash: ID)
    | ResetPassword(hash: ID, secret: ID)

  /** The committed tables, the error and the pair of tokens handed out. */
  datatype Outcome = Outcome(db: Db, err: Option<Error>, issued: Option<S.Issue>)

  function Failed(db: Db, err: Error): Outcome {
    Outcome(db, Some(err), None)
  }

  /** The identity row of a provider and subject. */
  ghost function Find(a: A.Accounts, provider: A.Provider, subject: ID): Option<ID> {
    if i :| i in a.identities && a.identities[i].provider == provider && a.identities[i].subject == subject then Some(i)
    else None
  }

  function Opened(db: Db, accounts: A.Accounts, user: ID, issue: S.Issue, now: Time, ttl: S.Lifetimes): Outcome {
    Outcome(db.(accounts := accounts, sessions := S.Open(db.sessions, user, issue, now, ttl)), None, Some(issue))
  }

  function Registering(db: Db, c: Call, now: Time, ttl: S.Lifetimes): Outcome
    requires c.Register?
  {
    if !A.CanRegister(db.accounts, c.email) then Failed(db, EmailAlreadyRegistered)
    else Opened(db, A.Registered(db.accounts, c.user, c.identity, c.email, c.secret), c.user, c.issue, now, ttl)
  }

  /** The offered password verifies against the stored hash. */
  predicate Knows(identity: A.Identity, verifies: ID -> bool) {
    identity.secret.Some? && verifies(identity.secret.value)
  }

  ghost function LoggingIn(db: Db, c: Call, now: Time, ttl: S.Lifetimes): Outcome
    requires c.Login?
  {
    match Find(db.accounts, A.Password, c.email)
    case None => Failed(db, InvalidCredentials)
    case Some(i) =>
      if !Knows(db.accounts.identities[i], c.verifies) then Failed(db, InvalidCredentials)
      else Opened(db, db.accounts, db.accounts.identities[i].user, c.issue, now, ttl)
  }

  function Refreshing(db: Db, c: Call, now: Time, ttl: S.Lifetimes): Outcome
    requires c.Refresh?
  {
    var db' := db.(sessions := S.Rotate(db.sessions, c.token, c.access, c.refresh, now, ttl));
    match S.Renewed(db.sessions, c.token, now)
    case None => Failed(db', InvalidRefreshToken)
    case Some(id) => Outcome(db', None, Some(S.Issue(id, c.access, c.refresh)))
  }

  function LoggingOut(db: Db, c: Call, now: Time): Outcome
    requires c.Logout?
  {
    if exists id | id in db.sessions.rows :: S.LogsOut(db.sessions, id, c.access, c.refresh)
    then Outcome(db.(sessions := S.Revoke(db.sessions, c.access, c.refresh, now)), None, None)
    else Failed(db, Unauthorized)
  }

  ghost function SigningInGoogle(db: Db, c: Call, now: Time, ttl: S.Lifetimes): Outcome
    requires c.SignInGoogle?
  {
    match Find(db.accounts, A.Google, c.subject)
    case Some(i) => Opened(db, db.accounts, db.accounts.identities[i].user, c.issue, now, ttl)
    case None =>
      if A.EmailTaken(db.accounts, c.email) then Failed(db, AccountLinkRequired)
      else Opened(db, A.GoogleUser(db.accounts, c.user, c.identity, c.subject, c.email), c.user, c.issue, now, ttl)
  }

  function LinkingGoogle(db: Db, c: Call): Outcome
    requires c.LinkGoogle?
  {
    if c.user !in db.accounts.users then Failed(db, UnknownUser)
    else if !A.CanLink(db.accounts, c.user, c.subject) then Failed(db, IdentityAlreadyLinked)
    else
      Outcome(db.(accounts := A.Linked(db.accounts, c.user, c.identity, c.subject, c.email, c.emailVerified)), None, None)
  }

  function Unlinking(db: Db, c: Call): Outcome
    requires c.Unlink?
  {
    if !A.HasMethod(db.accounts, c.user, c.provider) then Failed(db, MethodNotLinked)
    else if |A.IdentitiesOf(db.accounts, c.user)| <= 1 then Failed(db, LastMethod)
    else Outcome(db.(accounts := A.Unlinked(db.accounts, c.user, c.provider)), None, None)
  }

  function NewToken(c: Call, now: Time): M.EmailToken
    requires c.SendToken?
  {
    M.EmailToken(c.user, c.purpose, c.email, now, now + TokenLifetime(c.purpose), None)
  }

  /** sendToken: nothing is mailed within the cooldown. */
  function SendingToken(db: Db, c: Call, now: Time): Outcome
    requires c.SendToken?
  {
    if c.user !in db.accounts.users then Failed(db, UnknownUser)
    else Outcome(db.(mail := M.Create(db.mail, c.hash, NewToken(c, now), EMAIL_COOLDOWN)), None, None)
  }

  /** A token whose address no longer matches is spent all the same. */
  function VerifyingEmail(db: Db, c: Call, now: Time): Outcome
    requires c.VerifyEmail?
  {
    if !M.Acceptable(db.mail, c.hash, M.ToVerifyEmail, now) then Failed(db, InvalidToken)
    else
      var token := db.mail[c.hash];
      var spent := db.(mail := M.Consume(db.mail, c.hash, M.ToVerifyEmail, now));
      if token.user !in db.accounts.users || db.accounts.users[token.user].email != token.email then Failed(spent, InvalidToken)
      else Outcome(spent.(accounts := A.Verified(db.accounts, token.user)), None, None)
  }

  function ResettingPassword(db: Db, c: Call, now: Time): Outcome
    requires c.ResetPassword?
  {
    if !M.Acceptable(db.mail, c.hash, M.ToResetPassword, now) then Failed(db, InvalidToken)
    else
      var token := db.mail[c.hash];
      var spent := M.Consume(db.mail, c.hash, M.ToResetPassword, now);
      if !exists i | i in db.accounts.identities :: A.Resets(db.accounts.identities[i], token.user, token.email) then
        Failed(db.(mail := spent), InvalidToken)
      else
        Outcome(
          Db(A.Verified(A.WithSecret(db.accounts, token.user, token.email, c.secret), token.user),
             S.RevokeAllOf(db.sessions, token.user, now),
             M.Spent(spent, token.user, M.ToResetPassword, now)),
          None, None)
  }

  ghost function Step(db: Db, c: Call, now: Time, ttl: S.Lifetimes): Outcome {
    match c
    case Register(_, _, _, _, _) => Registering(db, c, now, ttl)
    case Login(_, _, _) => LoggingIn(db, c, now, ttl)
    case Refresh(_, _, _) => Refreshing(db, c, now, ttl)
    case Logout(_, _) => LoggingOut(db, c, now)
    case SignInGoogle(_, _, _, _, _) => SigningInGoogle(db, c, now, ttl)
    case LinkGoogle(_, _, _, _, _) => LinkingGoogle(db, c)
    case Unlink(_, _) => Unlinking(db, c)
    case SendToken(_, _, _, _) => SendingToken(db, c, now)
    case VerifyEmail(_) => VerifyingEmail(db, c, now)
    case ResetPassword(_, _) => ResettingPassword(db, c, now)
  }

  // ---------- Runs ----------

  /** The tables and every pair of tokens issued so far. */
  datatype State = State(db: Db, log: seq<S.Issue>)

  predicate FreshIssue(st: State, issue: S.Issue) {
    S.Fresh(st.log, issue) && issue.session !in st.db.sessions.rows
  }

  /** UUIDs and tokens are new. */
  predicate Enabled(st: State, c: Call) {
    match c
    case Register(user, identity, _, _, issue) =>
      user !in st.db.accounts.users && identity !in st.db.accounts.identities && FreshIssue(st, issue)
    case Login(_, _, issue) => FreshIssue(st, issue)
    case Refresh(token, access, refresh) =>
      forall i | 0 <= i < |st.log| :: st.log[i].access != access && st.log[i].refresh != refresh
    case SignInGoogle(user, identity, _, _, issue) =>
      user !in st.db.accounts.users && identity !in st.db.accounts.identities && FreshIssue(st, issue)
    case LinkGoogle(_, identity, _, _, _) => identity !in st.db.accounts.identities
    case SendToken(_, _, _, hash) => hash !in st.db.mail
    case _ => true
  }

  ghost function Apply(st: State, c: Call, now: Time, ttl: S.Lifetimes): State {
    var r := Step(st.db, c, now, ttl);
    State(r.db, if r.issued.Some? then st.log + [r.issued.value] else st.log)
  }

  ghost predicate Possible(st: State, calls: seq<(Call, Time)>, ttl: S.Lifetimes)
    decreases |calls|
  {
    calls == [] ||
    (Enabled(st, calls[0].0) && Possible(Apply(st, calls[0].0, calls[0].1, ttl), calls[1..], ttl))
  }

  ghost function Run(st: State, calls: seq<(Call, Time)>, ttl: S.Lifetimes): State
    decreases |calls|
  {
    if calls == [] then st else Run(Apply(st, calls[0].0, calls[0].1, ttl), calls[1..], ttl)
  }

  function Init(): State {
    State(Db(A.Accounts(map[], map[]), S.Sessions(map[], map[]), map[]), [])
  }

  // ---------- What every call keeps ----------

  /** The foreign keys to users. */
  ghost predicate References(db: Db) {
    && (forall id | id in db.sessions.rows :: db.sessions.rows[id].user in db.accounts.users)
    && (forall h | h in db.mail :: db.mail[h].user in db.accounts.users)
  }

  ghost predicate Inv(st: State) {
    && A.Sound(st.db.accounts) && S.Consistent(st.db.sessions, st.log) && M.Tidy(st.db.mail, EMAIL_COOLDOWN)
    && References(st.db)
  }

  /** What any later state still shows of this one. */
  ghost predicate Continues(st: State, st': State) {
    && A.Continues(st.db.accounts, st'.db.accounts)
    && S.Continues(st.db.sessions, st.log, st'.db.sessions, st'.log)
    && M.Continues(st.db.mail, st'.db.mail)
  }

  lemma InitInv()
    ensures Inv(Init())
  {
  }

  lemma SameSessions(s: S.Sessions, log: seq<S.Issue>)
    ensures S.Continues(s, log, s, log)
  {
  }

  lemma SameMail(t: M.EmailTokens)
    ensures M.Continues(t, t)
  {
  }

  lemma OpenedKeeps(st: State, accounts: A.Accounts, user: ID, issue: S.Issue, now: Time, ttl: S.Lifetimes)
    requires Inv(st) && FreshIssue(st, issue)
    requires A.Sound(accounts) && A.Continues(st.db.accounts, accounts) && user in accounts.users
    ensures var st' := State(Opened(st.db, accounts, user, issue, now, ttl).db, st.log + [issue]);
            Inv(st') && Continues(st, st')
  {
    hide A.Sound, M.Tidy, S.Distinct, S.Recorded, S.Current, S.Continues;
    S.OpenKeeps(st.db.sessions, st.log, user, issue, now, ttl);
    S.OpenContinues(st.db.sessions, st.log, user, issue, now, ttl);
    SameMail(st.db.mail);
  }

  lemma RegisterKeeps(st: State, c: Call, now: Time, ttl: S.Lifetimes)
    requires Inv(st) && c.Register? && Enabled(st, c)
    ensures Inv(Apply(st, c, now, ttl)) && Continues(st, Apply(st, c, now, ttl))
  {
    hide A.Sound, S.Consistent, M.Tidy, S.Continues, M.Continues;
    if A.CanRegister(st.db.accounts, c.email) {
      A.NewUserKeeps(st.db.accounts, c.user, A.User(c.email, false), c.identity,
                     A.Identity(c.user, A.Password, c.email, Some(c.secret)));
      OpenedKeeps(st, A.Registered(st.db.accounts, c.user, c.identity, c.email, c.secret), c.user, c.issue, now, ttl);
    } else {
      SameSessions(st.db.sessions, st.log);
      SameMail(st.db.mail);
    }
  }

  lemma LoginKeeps(st: State, c: Call, now: Time, ttl: S.Lifetimes)
    requires Inv(st) && c.Login? && Enabled(st, c)
    ensures Inv(Apply(st, c, now, ttl)) && Continues(st, Apply(st, c, now, ttl))
  {
    hide S.Consistent, M.Tidy, S.Continues, M.Continues, A.UniqueEmails, A.UniqueIdentities;
    if LoggingIn(st.db, c, now, ttl).err.None? {
      var i := Find(st.db.accounts, A.Password, c.email).value;
      OpenedKeeps(st, st.db.accounts, st.db.accounts.identities[i].user, c.issue, now, ttl);
    } else {
      SameSessions(st.db.sessions, st.log);
      SameMail(st.db.mail);
    }
  }

  lemma SignInKeeps(st: State, c: Call, now: Time, ttl: S.Lifetimes)
    requires Inv(st) && c.SignInGoogle? && Enabled(st, c)
    ensures Inv(Apply(st, c, now, ttl)) && Continues(st, Apply(st, c, now, ttl))
  {
    hide S.Consistent, M.Tidy, S.Continues, M.Continues, A.UniqueEmails, A.UniqueIdentities;
    if Find(st.db.accounts, A.Google, c.subject).Some? {
      var i := Find(st.db.accounts, A.Google, c.subject).value;
      OpenedKeeps(st, st.db.accounts, st.db.accounts.identities[i].user, c.issue, now, ttl);
    } else if A.EmailTaken(st.db.accounts, c.email) {
      SameSessions(st.db.sessions, st.log);
      SameMail(st.db.mail);
    } else {
      A.NewUserKeeps(st.db.accounts, c.user, A.User(c.email, true), c.identity,
                     A.Identity(c.user, A.Google, c.subject, None));
      OpenedKeeps(st, A.GoogleUser(st.db.accounts, c.user, c.identity, c.subject, c.email), c.user, c.issue, now, ttl);
    }
  }

  lemma RefreshKeeps(st: State, c: Call, now: Time, ttl: S.Lifetimes)
    requires Inv(st) && c.Refresh? && Enabled(st, c)
    ensures Inv(Apply(st, c, now, ttl)) && Continues(st, Apply(st, c, now, ttl))
  {
    hide A.Sound, M.Tidy, S.Distinct, S.Recorded, S.Current, S.Continues, M.Continues;
    var s, s' := st.db.sessions, S.Rotate(st.db.sessions, c.token, c.access, c.refresh, now, ttl);
    SameMail(st.db.mail);
    if S.Renewed(s, c.token, now).Some? {
      S.RotateKeeps(s, st.log, c.token, c.access, c.refresh, now, ttl);
      S.RotateContinues(s, st.log, c.token, c.access, c.refresh, now, ttl);
    } else {
      S.EndingsOnlyEnd(s, c.token, c.access, c.refresh, c.access, now, ttl);
      S.EndKeeps(s, s', st.log);
      S.EndContinues(s, s', st.log);
    }
  }

  lemma LogoutKeeps(st: State, c: Call, now: Time, ttl: S.Lifetimes)
    requires Inv(st) && c.Logout?
    ensures Inv(Apply(st, c, now, ttl)) && Continues(st, Apply(st, c, now, ttl))
  {
    hide A.Sound, M.Tidy, S.Consistent, S.Continues, M.Continues;
    var s, s' := st.db.sessions, S.Revoke(st.db.sessions, c.access, c.refresh, now);
    SameMail(st.db.mail);
    SameSessions(s, st.log);
    S.EndingsOnlyEnd(s, c.refresh, c.access, c.refresh, c.access, now, ttl);
    S.EndKeeps(s, s', st.log);
    S.EndContinues(s, s', st.log);
  }

  lemma AccountCallKeeps(st: State, c: Call, now: Time, ttl: S.Lifetimes)
    requires Inv(st) && Enabled(st, c) && (c.LinkGoogle? || c.Unlink? || c.SendToken?)
    ensures Inv(Apply(st, c, now, ttl)) && Continues(st, Apply(st, c, now, ttl))
  {
    hide A.Sound, M.Tidy, S.Consistent, S.Continues, M.Continues;
    SameSessions(st.db.sessions, st.log);
    SameMail(st.db.mail);
    if Step(st.db, c, now, ttl).err.None? {
      match c
      case LinkGoogle(user, identity, subject, email, emailVerified) =>
        A.LinkKeeps(st.db.accounts, user, identity, subject, email, emailVerified);
      case Unlink(user, provider) =>
        A.UnlinkKeeps(st.db.accounts, user, provider);
      case SendToken(user, purpose, email, hash) =>
        M.CreateKeeps(st.db.mail, hash, NewToken(c, now), EMAIL_COOLDOWN);
    }
  }

  lemma VerifyKeeps(st: State, c: Call, now: Time, ttl: S.Lifetimes)
    requires Inv(st) && c.VerifyEmail?
    ensures Inv(Apply(st, c, now, ttl)) && Continues(st, Apply(st, c, now, ttl))
  {
    hide A.Sound, M.Tidy, S.Consistent, S.Continues, M.Continues;
    SameSessions(st.db.sessions, st.log);
    SameMail(st.db.mail);
    M.ConsumeKeeps(st.db.mail, c.hash, M.ToVerifyEmail, now, EMAIL_COOLDOWN);
    if M.Acceptable(st.db.mail, c.hash, M.ToVerifyEmail, now) {
      A.VerifyKeeps(st.db.accounts, st.db.mail[c.hash].user);
    }
  }

  lemma ResetKeeps(st: State, c: Call, now: Time, ttl: S.Lifetimes)
    requires Inv(st) && c.ResetPassword?
    ensures Inv(Apply(st, c, now, ttl)) && Continues(st, Apply(st, c, now, ttl))
  {
    hide A.Sound, M.Tidy, S.Consistent, S.Continues, M.Continues;
    var s := st.db.sessions;
    SameSessions(s, st.log);
    SameMail(st.db.mail);
    if M.Acceptable(st.db.mail, c.hash, M.ToResetPassword, now) {
      var token := st.db.mail[c.hash];
      var spent := M.Consume(st.db.mail, c.hash, M.ToResetPassword, now);
      M.ConsumeKeeps(st.db.mail, c.hash, M.ToResetPassword, now, EMAIL_COOLDOWN);
      M.SpendKeeps(spent, token.user, M.ToResetPassword, now, EMAIL_COOLDOWN);
      M.ContinuesTransitive(st.db.mail, spent, M.Spent(spent, token.user, M.ToResetPassword, now));
      S.EndingsOnlyEnd(s, c.hash, c.hash, c.hash, token.user, now, ttl);
      S.EndKeeps(s, S.RevokeAllOf(s, token.user, now), st.log);
      S.EndContinues(s, S.RevokeAllOf(s, token.user, now), st.log);
      A.ResetKeeps(st.db.accounts, token.user, token.email, c.secret);
      A.VerifyKeeps(A.WithSecret(st.db.accounts, token.user, token.email, c.secret), token.user);
    }
  }

  lemma ApplyKeeps(st: State, c: Call, now: Time, ttl: S.Lifetimes)
    requires Inv(st) && Enabled(st, c)
    ensures Inv(Apply(st, c, now, ttl)) && Continues(st, Apply(st, c, now, ttl))
  {
    hide *;
    match c
    case Register(_, _, _, _, _) => RegisterKeeps(st, c, now, ttl);
    case Login(_, _, _) => LoginKeeps(st, c, now, ttl);
    case Refresh(_, _, _) => RefreshKeeps(st, c, now, ttl);
    case Logout(_, _) => LogoutKeeps(st, c, now, ttl);
    case SignInGoogle(_, _, _, _, _) => SignInKeeps(st, c, now, ttl);
    case LinkGoogle(_, _, _, _, _) => AccountCallKeeps(st, c, now, ttl);
    case Unlink(_, _) => AccountCallKeeps(st, c, now, ttl);
    case SendToken(_, _, _, _) => AccountCallKeeps(st, c, now, ttl);
    case VerifyEmail(_) => VerifyKeeps(st, c, now, ttl);
    case ResetPassword(_, _) => ResetKeeps(st, c, now, ttl);
  }

  lemma ContinuesTransitive(st: State, st1: State, st2: State)
    requires Continues(st, st1) && Continues(st1, st2)
    ensures Continues(st, st2)
  {
    hide S.Continues, M.Continues;
    S.ContinuesTransitive(st.db.sessions, st.log, st1.db.sessions, st1.log, st2.db.sessions, st2.log);
    M.ContinuesTransitive(st.db.mail, st1.db.mail, st2.db.mail);
  }

  /** Every run from a state with the invariant keeps it and continues the state. */
  lemma {:induction false} RunKeeps(st: State, calls: seq<(Call, Time)>, ttl: S.Lifetimes)
    requires Inv(st) && Possible(st, calls, ttl)
    ensures Inv(Run(st, calls, ttl)) && Continues(st, Run(st, calls, ttl))
    decreases |calls|
  {
    hide Inv, Continues, Enabled, Apply;
    if calls == [] {
      Reflexive(st);
    } else {
      var st1 := Apply(st, calls[0].0, calls[0].1, ttl);
      ApplyKeeps(st, calls[0].0, calls[0].1, ttl);
      RunKeeps(st1, calls[1..], ttl);
      ContinuesTransitive(st, st1, Run(st1, calls[1..], ttl));
    }
  }

  lemma Reflexive(st: State)
    ensures Continues(st, st)
  {
    SameSessions(st.db.sessions, st.log);
    SameMail(st.db.mail);
  }
}
