/**
  One-time tokens sent by email: CreateEmailToken and consumeEmailToken of
  internal/auth/account_postgres.go on the rows of email_tokens, keyed by token hash.
*/
module AuthEmailTokens {
  import opened Common

  datatype Purpose = ToVerifyEmail | ToResetPassword

  datatype EmailToken = EmailToken(
    user: ID, purpose: Purpose, email: ID, created: Time, expires: Time, consumed: Option<Time>)

  type EmailTokens = map<ID, EmailToken>

  /** Rows of one user and purpose. */
  predicate Of(token: EmailToken, user: ID, purpose: Purpose) {
    token.user == user && token.purpose == purpose
  }

  predicate InCooldown(t: EmailTokens, user: ID, purpose: Purpose, now: Time, cooldown: Time) {
    exists h | h in t :: Of(t[h], user, purpose) && t[h].created > now - cooldown
  }

  /** UPDATE ... SET consumed_at for the rows of one user and purpose that have none. */
  function Spent(t: EmailTokens, user: ID, purpose: Purpose, now: Time): EmailTokens {
    map h | h in t :: if Of(t[h], user, purpose) && t[h].consumed.None? then t[h].(consumed := Some(now)) else t[h]
  }

  /** CreateEmailToken; inside the cooldown nothing happens. */
  function Create(t: EmailTokens, hash: ID, token: EmailToken, cooldown: Time): EmailTokens {
    if InCooldown(t, token.user, token.purpose, token.created, cooldown) then t
    else Spent(t, token.user, token.purpose, token.created)[hash := token]
  }

  predicate Acceptable(t: EmailTokens, hash: ID, purpose: Purpose, now: Time) {
    hash in t && t[hash].purpose == purpose && t[hash].consumed.None? && t[hash].expires > now
  }

  /** consumeEmailToken */
  function Consume(t: EmailTokens, hash: ID, purpose: Purpose, now: Time): EmailTokens {
    if Acceptable(t, hash, purpose, now) then t[hash := t[hash].(consumed := Some(now))] else t
  }

  // ---------- Invariants ----------

  /** Tokens of one user and purpose are created at least the cooldown apart. */
  ghost predicate Spaced(t: EmailTokens, cooldown: Time) {
    forall h, k | h in t && k in t && h != k && Of(t[h], t[k].user, t[k].purpose) ::
      t[h].created + cooldown <= t[k].created || t[k].created + cooldown <= t[h].created
  }

  /** At most one of them is unconsumed. */
  ghost predicate OneOpen(t: EmailTokens) {
    forall h, k | h in t && k in t && Of(t[h], t[k].user, t[k].purpose) && t[h].consumed.None? && t[k].consumed.None? ::
      h == k
  }

  ghost predicate Tidy(t: EmailTokens, cooldown: Time) {
    Spaced(t, cooldown) && OneOpen(t)
  }

  /** Rows are never deleted, and all that ever happens to one is that it is consumed, once. */
  ghost predicate Continues(t: EmailTokens, t': EmailTokens) {
    forall h | h in t ::
      && h in t' && t'[h].(consumed := t[h].consumed) == t[h]
      && (t[h].consumed.Some? ==> t'[h] == t[h])
  }

  lemma SpendKeeps(t: EmailTokens, user: ID, purpose: Purpose, now: Time, cooldown: Time)
    requires Tidy(t, cooldown)
    ensures Tidy(Spent(t, user, purpose, now), cooldown) && Continues(t, Spent(t, user, purpose, now))
    ensures forall h | h in t && Of(t[h], user, purpose) :: Spent(t, user, purpose, now)[h].consumed.Some?
  {
  }

  lemma CreateKeeps(t: EmailTokens, hash: ID, token: EmailToken, cooldown: Time)
    requires Tidy(t, cooldown) && hash !in t && cooldown > 0 && token.consumed.None?
    ensures Tidy(Create(t, hash, token, cooldown), cooldown)
    ensures Continues(t, Create(t, hash, token, cooldown))
  {
    hide Tidy;
    if !InCooldown(t, token.user, token.purpose, token.created, cooldown) {
      SpendKeeps(t, token.user, token.purpose, token.created, cooldown);
      AddKeeps(Spent(t, token.user, token.purpose, token.created), hash, token, cooldown);
    }
  }

  lemma AddKeeps(t: EmailTokens, hash: ID, token: EmailToken, cooldown: Time)
    requires Tidy(t, cooldown) && hash !in t && cooldown > 0
    requires forall h | h in t && Of(t[h], token.user, token.purpose) ::
      t[h].consumed.Some? && t[h].created + cooldown <= token.created
    ensures Tidy(t[hash := token], cooldown)
  {
  }

  lemma ConsumeKeeps(t: EmailTokens, hash: ID, purpose: Purpose, now: Time, cooldown: Time)
    requires Tidy(t, cooldown)
    ensures Tidy(Consume(t, hash, purpose, now), cooldown) && Continues(t, Consume(t, hash, purpose, now))
  {
  }

  lemma ContinuesTransitive(t: EmailTokens, t1: EmailTokens, t2: EmailTokens)
    requires Continues(t, t1) && Continues(t1, t2)
    ensures Continues(t, t2)
  {
  }

  /** Once accepted, or replaced by a newer one, a token is never accepted again, for any purpose. */
  lemma NeverAgain(t: EmailTokens, t': EmailTokens, hash: ID, purpose: Purpose, now: Time)
    requires Continues(t, t') && hash in t && t[hash].consumed.Some?
    ensures !Acceptable(t', hash, purpose, now)
  {
  }

  // ---------- How many tokens fit in a span ----------

  function Between(t: EmailTokens, user: ID, purpose: Purpose, from: Time, until: Time): set<ID> {
    set h | h in t && Of(t[h], user, purpose) && from <= t[h].created <= until
  }

  /** A span of length w holds at most w / cooldown + 1 tokens of one user and purpose. */
  lemma {:induction false} AtMostPerSpan(
    t: EmailTokens, user: ID, purpose: Purpose, from: Time, until: Time, cooldown: Time)
    requires Spaced(t, cooldown) && cooldown > 0 && from <= until
    ensures (|Between(t, user, purpose, from, until)| - 1) * cooldown <= until - from
    decreases until - from
  {
    hide Spaced, Of;
    var ids := Between(t, user, purpose, from, until);
    if |ids| <= 1 {
      OneMore(|ids| - 1, 0, cooldown, until - from);
    } else {
      var last := Newest(t, ids);
      var older := ids - {last};
      assert |older| == |ids| - 1;
      var rest := Between(t, user, purpose, from, until - cooldown);
      assert older <= rest by { OlderAreSpaced(t, user, purpose, from, until, cooldown, last); }
      assert from <= until - cooldown by {
        var other :| other in older;
        assert other in rest;
      }
      AtMostPerSpan(t, user, purpose, from, until - cooldown, cooldown);
      SubsetSize(older, rest);
      OneMore(|older|, |rest|, cooldown, until - from);
    }
  }

  lemma OlderAreSpaced(
    t: EmailTokens, user: ID, purpose: Purpose, from: Time, until: Time, cooldown: Time, last: ID)
    requires Spaced(t, cooldown) && cooldown > 0
    requires last in Between(t, user, purpose, from, until)
    requires forall h | h in Between(t, user, purpose, from, until) :: t[h].created <= t[last].created
    ensures Between(t, user, purpose, from, until) - {last} <= Between(t, user, purpose, from, until - cooldown)
  {
  }

  lemma OneMore(n: int, m: int, step: int, span: int)
    requires n <= m && step > 0 && (m - 1) * step <= span - step
    ensures n * step <= span
  {
    assert n * step <= m * step;
  }

  lemma {:induction false} Newest(t: EmailTokens, ids: set<ID>) returns (last: ID)
    requires ids <= t.Keys && ids != {}
    ensures last in ids && forall h | h in ids :: t[h].created <= t[last].created
    decreases ids
  {
    var h :| h in ids;
    last := h;
    var rest := ids - {h};
    assert ids == rest + {h};
    if rest != {} {
      var k := Newest(t, rest);
      if t[k].created > t[h].created {
        last := k;
      }
    }
  }
}
