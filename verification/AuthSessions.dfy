/**
  Sessions and their rotating refresh tokens: the session rows of internal/auth/postgres.go with
  the lifetimes internal/auth/service.go gives them. A refresh token works once; presenting it
  again ends the session.
*/
module AuthSessions {
  import opened Common

  datatype Session = Session(user: ID, access: ID, accessExpires: Time, expires: Time, revoked: Option<Time>)

  datatype RefreshToken = RefreshToken(session: ID, expires: Time, consumed: Option<Time>)

  /** Sessions by ID and refresh tokens by hash. */
  datatype Sessions = Sessions(rows: map<ID, Session>, tokens: map<ID, RefreshToken>)

  /** One pair of tokens handed to a client. */
  datatype Issue = Issue(session: ID, access: ID, refresh: ID)

  /** The two lifetimes NewService accepts. */
  datatype Lifetimes = Lifetimes(access: Time, refresh: Time) {
    predicate Valid() {
      0 < access < refresh
    }
  }

  /** insertSession */
  function Open(s: Sessions, user: ID, issue: Issue, now: Time, ttl: Lifetimes): Sessions {
    Sessions(
      s.rows[issue.session := Session(user, issue.access, now + ttl.access, now + ttl.refresh, None)],
      s.tokens[issue.refresh := RefreshToken(issue.session, now + ttl.refresh, None)])
  }

  /** COALESCE(revoked_at, now) */
  function Ended(row: Session, now: Time): Session {
    if row.revoked.Some? then row else row.(revoked := Some(now))
  }

  predicate Known(s: Sessions, token: ID) {
    token in s.tokens && s.tokens[token].session in s.rows
  }

  predicate Usable(s: Sessions, token: ID, now: Time)
    requires Known(s, token)
  {
    var row := s.rows[s.tokens[token].session];
    s.tokens[token].consumed.None? && row.revoked.None? && now < s.tokens[token].expires && now < row.expires
  }

  /** The session that a rotation renews. */
  function Renewed(s: Sessions, token: ID, now: Time): Option<ID> {
    if Known(s, token) && Usable(s, token, now) then Some(s.tokens[token].session) else None
  }

  /** RotateSession: renews, or ends the session of a token that is no longer good. */
  function Rotate(s: Sessions, token: ID, access: ID, refresh: ID, now: Time, ttl: Lifetimes): Sessions {
    if !Known(s, token) then s
    else
      var id := s.tokens[token].session;
      if !Usable(s, token, now) then s.(rows := s.rows[id := Ended(s.rows[id], now)])
      else
        Sessions(
          s.rows[id := s.rows[id].(access := access, accessExpires := now + ttl.access, expires := now + ttl.refresh)],
          s.tokens[token := s.tokens[token].(consumed := Some(now))]
                  [refresh := RefreshToken(id, now + ttl.refresh, None)])
  }

  /** The sessions that a logout with this pair of tokens ends. */
  predicate LogsOut(s: Sessions, id: ID, access: ID, refresh: ID) {
    && id in s.rows && s.rows[id].access == access && s.rows[id].revoked.None?
    && refresh in s.tokens && s.tokens[refresh].session == id && s.tokens[refresh].consumed.None?
  }

  /** RevokeSession */
  function Revoke(s: Sessions, access: ID, refresh: ID, now: Time): Sessions {
    s.(rows := map id | id in s.rows :: if LogsOut(s, id, access, refresh) then Ended(s.rows[id], now) else s.rows[id])
  }

  /** The revocation in ResetPassword. */
  function RevokeAllOf(s: Sessions, user: ID, now: Time): Sessions {
    s.(rows := map id | id in s.rows :: if s.rows[id].user == user then Ended(s.rows[id], now) else s.rows[id])
  }

  /** FindUserByAccessToken: the session an access token stands for. */
  predicate Live(s: Sessions, id: ID, access: ID, now: Time) {
    && id in s.rows && s.rows[id].access == access && s.rows[id].revoked.None?
    && s.rows[id].accessExpires > now && s.rows[id].expires > now
  }

  ghost predicate Accepted(s: Sessions, access: ID, now: Time) {
    exists id :: Live(s, id, access, now)
  }

  // ---------- Every pair ever issued ----------

  ghost predicate Superseded(log: seq<Issue>, i: nat)
    requires i < |log|
  {
    exists j | i < j < |log| :: log[j].session == log[i].session
  }

  ghost predicate Distinct(log: seq<Issue>) {
    forall i, j | 0 <= i < j < |log| :: log[i].access != log[j].access && log[i].refresh != log[j].refresh
  }

  predicate Fresh(log: seq<Issue>, issue: Issue) {
    forall i | 0 <= i < |log| :: log[i].access != issue.access && log[i].refresh != issue.refresh
  }

  ghost predicate HasSession(log: seq<Issue>, id: ID) {
    exists i :: 0 <= i < |log| && log[i].session == id
  }

  ghost predicate HasToken(log: seq<Issue>, token: ID) {
    exists i :: 0 <= i < |log| && log[i].refresh == token
  }

  ghost predicate Recorded(s: Sessions, log: seq<Issue>) {
    && (forall i | 0 <= i < |log| :: log[i].session in s.rows && log[i].refresh in s.tokens)
    && (forall i | 0 <= i < |log| :: s.tokens[log[i].refresh].session == log[i].session)
    && (forall id | id in s.rows :: HasSession(log, id))
    && (forall token | token in s.tokens :: HasToken(log, token))
  }

  /** The last pair issued for a session is the one its row and its unconsumed token hold. */
  ghost predicate Current(s: Sessions, log: seq<Issue>)
    requires Recorded(s, log)
  {
    && (forall i | 0 <= i < |log| :: s.tokens[log[i].refresh].consumed.None? <==> !Superseded(log, i))
    && (forall i | 0 <= i < |log| && !Superseded(log, i) ::
          && s.rows[log[i].session].access == log[i].access
          && s.rows[log[i].session].expires == s.tokens[log[i].refresh].expires)
  }

  ghost predicate Consistent(s: Sessions, log: seq<Issue>) {
    Distinct(log) && Recorded(s, log) && Current(s, log)
  }

  lemma SupersededAfter(log: seq<Issue>, issue: Issue, i: nat)
    requires i < |log|
    ensures Superseded(log + [issue], i) <==> Superseded(log, i) || log[i].session == issue.session
  {
    var log' := log + [issue];
    if Superseded(log, i) {
      var j :| i < j < |log| && log[j].session == log[i].session;
      assert log'[j].session == log'[i].session;
    }
    if log[i].session == issue.session {
      assert log'[|log|].session == log'[i].session;
    }
  }

  lemma AppendHas(log: seq<Issue>, issue: Issue)
    ensures forall id :: HasSession(log + [issue], id) <==> HasSession(log, id) || id == issue.session
    ensures forall token :: HasToken(log + [issue], token) <==> HasToken(log, token) || token == issue.refresh
  {
    var log' := log + [issue];
    assert log'[|log|] == issue;
    forall id | HasSession(log, id)
      ensures HasSession(log', id)
    {
      var i :| 0 <= i < |log| && log[i].session == id;
      assert log'[i] == log[i];
    }
    forall token | HasToken(log, token)
      ensures HasToken(log', token)
    {
      var i :| 0 <= i < |log| && log[i].refresh == token;
      assert log'[i] == log[i];
    }
  }

  lemma FreshToken(s: Sessions, log: seq<Issue>, issue: Issue)
    requires Recorded(s, log) && Fresh(log, issue)
    ensures issue.refresh !in s.tokens
  {
  }

  lemma AppendSuperseded(log: seq<Issue>, issue: Issue)
    ensures !Superseded(log + [issue], |log|)
    ensures forall i | 0 <= i < |log| :: Superseded(log + [issue], i) <==> Superseded(log, i) || log[i].session == issue.session
  {
    forall i | 0 <= i < |log|
      ensures Superseded(log + [issue], i) <==> Superseded(log, i) || log[i].session == issue.session
    {
      SupersededAfter(log, issue, i);
    }
  }

  lemma OpenKeeps(s: Sessions, log: seq<Issue>, user: ID, issue: Issue, now: Time, ttl: Lifetimes)
    requires Consistent(s, log) && Fresh(log, issue) && issue.session !in s.rows
    ensures Consistent(Open(s, user, issue, now, ttl), log + [issue])
  {
    hide Superseded, HasSession, HasToken;
    FreshToken(s, log, issue) by { hide Current; }
    AppendHas(log, issue);
    AppendSuperseded(log, issue);
    assert Recorded(Open(s, user, issue, now, ttl), log + [issue]) by {
      hide Current, Distinct;
    }
  }

  lemma RotateKeeps(s: Sessions, log: seq<Issue>, token: ID, access: ID, refresh: ID, now: Time, ttl: Lifetimes)
    requires Consistent(s, log) && Renewed(s, token, now).Some?
    requires Fresh(log, Issue(Renewed(s, token, now).value, access, refresh))
    ensures Consistent(Rotate(s, token, access, refresh, now, ttl),
                       log + [Issue(Renewed(s, token, now).value, access, refresh)])
  {
    hide Superseded, HasSession, HasToken;
    var id := Renewed(s, token, now).value;
    var issue := Issue(id, access, refresh);
    FreshToken(s, log, issue) by { hide Current; }
    AppendHas(log, issue);
    AppendSuperseded(log, issue);
    assert Recorded(Rotate(s, token, access, refresh, now, ttl), log + [issue]) by {
      hide Current, Distinct;
    }
    forall i | 0 <= i < |log| && !Superseded(log, i) && log[i].session == id
      ensures log[i].refresh == token
    {
      OneLatest(s, log, token, i);
    }
  }

  lemma LatestIsOne(log: seq<Issue>, i: nat, j: nat)
    requires i < |log| && j < |log| && log[i].session == log[j].session
    requires !Superseded(log, i) && !Superseded(log, j)
    ensures i == j
  {
  }

  /** The unconsumed token of a session is the last one issued for it. */
  lemma OneLatest(s: Sessions, log: seq<Issue>, token: ID, i: nat)
    requires Consistent(s, log) && i < |log| && !Superseded(log, i)
    requires token in s.tokens && s.tokens[token].session == log[i].session && s.tokens[token].consumed.None?
    ensures token == log[i].refresh
  {
    assert exists j :: 0 <= j < |log| && log[j].refresh == token by {
      hide Current, Distinct, HasSession;
      assert HasToken(log, token);
    }
    var j :| 0 <= j < |log| && log[j].refresh == token;
    assert !Superseded(log, j) by {
      hide Distinct, HasSession, HasToken, Superseded;
    }
    hide Distinct, HasSession, HasToken, Current;
    LatestIsOne(log, i, j);
  }

  /** Changes that only end sessions. */
  ghost predicate OnlyEnds(s: Sessions, s': Sessions) {
    && s'.tokens == s.tokens && s'.rows.Keys == s.rows.Keys
    && forall id | id in s.rows ::
         && s'.rows[id].(revoked := s.rows[id].revoked) == s.rows[id]
         && (s.rows[id].revoked.Some? ==> s'.rows[id] == s.rows[id])
  }

  lemma EndKeeps(s: Sessions, s': Sessions, log: seq<Issue>)
    requires Consistent(s, log) && OnlyEnds(s, s')
    ensures Consistent(s', log)
  {
    hide Superseded, HasSession, HasToken;
    forall id | id in s.rows
      ensures s'.rows[id].access == s.rows[id].access && s'.rows[id].expires == s.rows[id].expires
    {
    }
    assert Recorded(s', log) by { hide Current, Distinct; }
  }

  lemma EndingsOnlyEnd(s: Sessions, token: ID, access: ID, refresh: ID, user: ID, now: Time, ttl: Lifetimes)
    ensures Renewed(s, token, now).None? ==> OnlyEnds(s, Rotate(s, token, access, refresh, now, ttl))
    ensures OnlyEnds(s, Revoke(s, access, refresh, now))
    ensures OnlyEnds(s, RevokeAllOf(s, user, now))
  {
    forall id | id in s.rows
      ensures Revoke(s, access, refresh, now).rows[id] == s.rows[id]
           || Revoke(s, access, refresh, now).rows[id] == Ended(s.rows[id], now)
    {
    }
  }

  // ---------- What later states keep ----------

  /**
    Sessions and tokens are never deleted, a consumed token stays consumed and an ended session
    ended, and only a new pair changes what a session accepts and until when.
  */
  ghost predicate Continues(s: Sessions, log: seq<Issue>, s': Sessions, log': seq<Issue>) {
    && log <= log'
    && (forall id | id in s.rows :: id in s'.rows && s'.rows[id].user == s.rows[id].user)
    && (forall id | id in s.rows && s.rows[id].revoked.Some? :: s'.rows[id].revoked == s.rows[id].revoked)
    && (forall token | token in s.tokens :: token in s'.tokens && s'.tokens[token].session == s.tokens[token].session)
    && (forall token | token in s.tokens && s.tokens[token].consumed.Some? :: s'.tokens[token] == s.tokens[token])
    && (forall i | |log| <= i < |log'| && log'[i].session in s.rows :: s.rows[log'[i].session].revoked.None?)
    && forall id | id in s.rows && !IssuedSince(log', |log|, id) :: SameButRevoked(s.rows[id], s'.rows[id])
  }

  /** A pair was issued for a session after the first n. */
  ghost predicate IssuedSince(log: seq<Issue>, n: nat, id: ID) {
    exists i :: n <= i < |log| && log[i].session == id
  }

  predicate SameButRevoked(row: Session, row': Session) {
    row'.(revoked := row.revoked) == row
  }

  lemma ContinuesTransitive(s: Sessions, log: seq<Issue>, s1: Sessions, log1: seq<Issue>, s2: Sessions, log2: seq<Issue>)
    requires Continues(s, log, s1, log1) && Continues(s1, log1, s2, log2)
    ensures Continues(s, log, s2, log2)
  {
    forall i | |log| <= i < |log2| && log2[i].session in s.rows
      ensures s.rows[log2[i].session].revoked.None?
    {
      if i < |log1| {
        assert log2[i] == log1[i];
      }
    }
    forall id | id in s.rows && !IssuedSince(log2, |log|, id)
      ensures SameButRevoked(s.rows[id], s2.rows[id])
    {
      EarlierToo(log1, log2, |log|, id);
      hide IssuedSince;
    }
  }

  lemma EarlierToo(log1: seq<Issue>, log2: seq<Issue>, n: nat, id: ID)
    requires log1 <= log2 && n <= |log1|
    ensures IssuedSince(log1, n, id) || IssuedSince(log2, |log1|, id) ==> IssuedSince(log2, n, id)
  {
    if IssuedSince(log1, n, id) {
      var i :| n <= i < |log1| && log1[i].session == id;
      assert log2[i].session == id;
    }
  }

  lemma OpenContinues(s: Sessions, log: seq<Issue>, user: ID, issue: Issue, now: Time, ttl: Lifetimes)
    requires Recorded(s, log) && Fresh(log, issue) && issue.session !in s.rows
    ensures Continues(s, log, Open(s, user, issue, now, ttl), log + [issue])
  {
    hide HasSession, HasToken;
    FreshToken(s, log, issue);
  }

  lemma RotateContinues(s: Sessions, log: seq<Issue>, token: ID, access: ID, refresh: ID, now: Time, ttl: Lifetimes)
    requires Recorded(s, log) && Renewed(s, token, now).Some?
    requires Fresh(log, Issue(Renewed(s, token, now).value, access, refresh))
    ensures Continues(s, log, Rotate(s, token, access, refresh, now, ttl),
                      log + [Issue(Renewed(s, token, now).value, access, refresh)])
  {
    hide HasSession, HasToken;
    var issue := Issue(Renewed(s, token, now).value, access, refresh);
    FreshToken(s, log, issue);
    assert (log + [issue])[|log|].session == issue.session;
  }

  lemma EndContinues(s: Sessions, s': Sessions, log: seq<Issue>)
    requires OnlyEnds(s, s')
    ensures Continues(s, log, s', log)
  {
  }

  // ---------- What a consistent state accepts ----------

  /** An access token is accepted exactly when it is the last one issued for its session, alive and in time. */
  lemma AcceptedIffLatest(s: Sessions, log: seq<Issue>, i: nat, now: Time)
    requires Consistent(s, log) && i < |log|
    ensures Accepted(s, log[i].access, now) <==>
            !Superseded(log, i) && Live(s, log[i].session, log[i].access, now)
  {
    if Accepted(s, log[i].access, now) {
      var id :| Live(s, id, log[i].access, now);
      var k := LastIssue(s, log, id);
      assert log[k].access == log[i].access;
    }
  }

  lemma LastIssue(s: Sessions, log: seq<Issue>, id: ID) returns (k: nat)
    requires Recorded(s, log) && id in s.rows
    ensures k < |log| && log[k].session == id && !Superseded(log, k)
  {
    var i :| 0 <= i < |log| && log[i].session == id;
    k := i;
    while Superseded(log, k)
      invariant k < |log| && log[k].session == id
      decreases |log| - k
    {
      var j :| k < j < |log| && log[j].session == log[k].session;
      k := j;
    }
  }

  /** Each session has exactly one unconsumed refresh token, and it expires with the session. */
  lemma OneRefreshToken(s: Sessions, log: seq<Issue>, id: ID) returns (token: ID)
    requires Consistent(s, log) && id in s.rows
    ensures token in s.tokens && s.tokens[token].session == id && s.tokens[token].consumed.None?
    ensures s.tokens[token].expires == s.rows[id].expires
    ensures forall other | other in s.tokens && s.tokens[other].session == id && s.tokens[other].consumed.None? ::
              other == token
  {
    hide Superseded;
    var k := LastIssue(s, log, id);
    token := log[k].refresh;
    forall other | other in s.tokens && s.tokens[other].session == id && s.tokens[other].consumed.None?
      ensures other == token
    {
      OneLatest(s, log, other, k);
    }
  }

  /** A refresh either spends its token or, for any other known token, ends the session. */
  lemma RotateSpendsOrEnds(s: Sessions, log: seq<Issue>, token: ID, access: ID, refresh: ID, now: Time, ttl: Lifetimes)
    requires Recorded(s, log) && token in s.tokens && Fresh(log, Issue(s.tokens[token].session, access, refresh))
    ensures var s' := Rotate(s, token, access, refresh, now, ttl);
            && Known(s, token)
            && if Renewed(s, token, now).Some? then s'.tokens[token].consumed.Some?
               else s'.rows[s.tokens[token].session].revoked.Some?
    ensures s.tokens[token].consumed.Some? ==> Renewed(s, token, now).None?
  {
    hide Superseded;
    FreshToken(s, log, Issue(s.tokens[token].session, access, refresh));
    assert Known(s, token) by {
      var i :| 0 <= i < |log| && log[i].refresh == token;
    }
  }

  /** An ended session is dead in every later state: none of its tokens works, and it gets no new ones. */
  lemma EndedForGood(s: Sessions, log: seq<Issue>, s': Sessions, log': seq<Issue>, id: ID)
    requires Consistent(s', log') && Continues(s, log, s', log')
    requires id in s.rows && s.rows[id].revoked.Some?
    ensures forall i, t | 0 <= i < |log'| && log'[i].session == id ::
              !Accepted(s', log'[i].access, t) && Renewed(s', log'[i].refresh, t).None?
    ensures forall i | |log| <= i < |log'| :: log'[i].session != id
  {
    hide Superseded;
    forall i, t | 0 <= i < |log'| && log'[i].session == id
      ensures !Accepted(s', log'[i].access, t) && Renewed(s', log'[i].refresh, t).None?
    {
      AcceptedIffLatest(s', log', i, t);
    }
  }
}
