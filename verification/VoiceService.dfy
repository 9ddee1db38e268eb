/** The voice service as an object: one map of entries, changed call by call, and its effects in order. */
module VoiceService {
  import opened Common
  import opened VoiceRegistry

  ghost predicate Injective(rank: ID -> nat) {
    forall a, b :: rank(a) == rank(b) ==> a == b
  }

  ghost predicate SortedBy(rank: ID -> nat, states: seq<State>) {
    forall i, j | 0 <= i < j < |states| :: rank(states[i].user) <= rank(states[j].user)
  }

  function Inserted(states: seq<State>, k: nat, state: State): seq<State>
    requires k <= |states|
  {
    states[..k] + [state] + states[k..]
  }

  lemma InsertedInOrder(rank: ID -> nat, states: seq<State>, k: nat, state: State)
    requires SortedBy(rank, states) && k <= |states|
    requires forall i | 0 <= i < k :: rank(states[i].user) <= rank(state.user)
    requires k < |states| ==> rank(state.user) < rank(states[k].user)
    ensures SortedBy(rank, Inserted(states, k, state))
  {
    var r := Inserted(states, k, state);
    assert forall i | 0 <= i < |r| :: r[i] == if i < k then states[i] else if i == k then state else states[i - 1];
    hide Inserted;
  }

  lemma InsertedOnce(states: seq<State>, k: nat, state: State)
    requires k <= |states|
    ensures multiset(Inserted(states, k, state)) == multiset(states) + multiset{state}
  {
    assert states == states[..k] + states[k..];
  }

  lemma NothingToSort(rank: ID -> nat)
    ensures SortedBy(rank, [])
  {
  }

  class Service {
    /** Whether a provider is configured. */
    const provider: bool
    /** The guild of each voice channel, which never changes. */
    const guildOf: ID -> ID
    /** User IDs as numbers, which is how lists are ordered. */
    const rank: ID -> nat
    var entries: Entries
    var log: seq<Effect>

    ghost function View(): Voice
      reads this
    {
      Voice(entries, log)
    }

    ghost predicate Ok()
      reads this
    {
      Valid(entries, guildOf) && Injective(rank)
    }

    constructor (provider: bool, guildOf: ID -> ID, rank: ID -> nat)
      requires Injective(rank)
      ensures View() == Voice(map[], []) && Ok()
      ensures this.provider == provider && this.guildOf == guildOf && this.rank == rank
    {
      this.provider, this.guildOf, this.rank := provider, guildOf, rank;
      entries, log := map[], [];
    }

    method CloseProvider(previous: Entry)
      requires previous.state.channel.Some?
      modifies this`log
      ensures log == old(log) + [Closed(previous.state.channel.value, previous.state.user)]
    {
      log := log + [Closed(previous.state.channel.value, previous.state.user)];
    }

    method Notify(guild: ID, state: State)
      modifies this`log
      ensures log == old(log) + [Notified(guild, state)]
    {
      log := log + [Notified(guild, state)];
    }

    /** The grant is what AuthorizeVoice answers for the channel. */
    method Join(user: ID, channel: ID, session: ID, mute: bool, deaf: bool, grant: Option<Grant>, now: Time)
      returns (state: Option<State>, err: Option<Error>)
      requires Ok()
      modifies this`entries, this`log
      ensures Ok()
      ensures if !provider then View() == old(View()) && err == Some(Unavailable)
              else (View(), err) == Step(old(View()), Joining(user, channel, session, mute, deaf), grant, now, guildOf)
      ensures err.None? ==> user in entries && state == Some(entries[user].state)
    {
      if !provider {
        return None, Some(Unavailable);
      }
      if grant.None? {
        return None, Some(Denied);
      }
      var joined := State(user, Some(channel), Some(session), mute, deaf, false, false, now);
      var wasPresent := user in entries;
      ghost var farewell: seq<Effect> := [];
      if wasPresent {
        var previous := entries[user];
        entries := entries[user := Entry(joined, guildOf(channel))];
        if previous.state.channel.value != channel {
          CloseProvider(previous);
          Notify(previous.guild, LeftState(user, now));
          farewell := Farewell(previous, user, now);
        }
      } else {
        entries := entries[user := Entry(joined, guildOf(channel))];
      }
      assert log == old(log) + farewell;
      Notify(guildOf(channel), joined);
      return Some(joined), None;
    }

    method Evict(user: ID, now: Time) returns (present: bool)
      requires Ok()
      modifies this`entries, this`log
      ensures Ok() && View() == VoiceRegistry.Evict(old(View()), user, now) && present == (user in old(entries))
    {
      if user !in entries {
        return false;
      }
      var previous := entries[user];
      entries := entries - {user};
      CloseProvider(previous);
      Notify(previous.guild, LeftState(user, now));
      assert log == old(log) + Farewell(previous, user, now);
      return true;
    }

    /** UpdateState when nothing else runs between its two sections. */
    method UpdateState(user: ID, update: Update, grant: Option<Grant>, now: Time) returns (err: Option<Error>)
      requires Ok()
      modifies this`entries, this`log
      ensures Ok() && (View(), err) == Step(old(View()), Updating(user, update), grant, now, guildOf)
    {
      if user !in entries {
        return Some(NotFound);
      }
      if grant.None? {
        var evicted := Evict(user, now);
        return Some(Denied);
      }
      if (update.video == Some(true) || update.stream == Some(true)) && !grant.value.stream {
        return Some(Forbidden);
      }
      var entry := entries[user];
      var state := WithFlags(entry.state, update, now);
      entries := entries[user := entry.(state := state)];
      Notify(entry.guild, state);
      return None;
    }

    method Leave(user: ID, now: Time) returns (err: Option<Error>)
      requires Ok()
      modifies this`entries, this`log
      ensures Ok() && (View(), err) == Step(old(View()), Leaving(user), None, now, guildOf)
    {
      var present := Evict(user, now);
      if !present {
        return Some(NotFound);
      }
      return None;
    }

    /** sortStates */
    method SortStates(states: seq<State>) returns (sorted: seq<State>)
      ensures SortedBy(rank, sorted) && multiset(sorted) == multiset(states)
    {
      hide SortedBy;
      sorted := [];
      assert SortedBy(rank, sorted) by { NothingToSort(rank); }
      for n := 0 to |states|
        invariant SortedBy(rank, sorted) && multiset(sorted) == multiset(states[..n])
      {
        sorted := Insert(sorted, states[n]);
        assert states[..n + 1] == states[..n] + [states[n]];
      }
      assert states[..|states|] == states;
    }

    method Insert(sorted: seq<State>, state: State) returns (r: seq<State>)
      requires SortedBy(rank, sorted)
      ensures SortedBy(rank, r) && multiset(r) == multiset(sorted) + multiset{state}
    {
      hide SortedBy;
      var k := 0;
      while k < |sorted| && rank(sorted[k].user) <= rank(state.user)
        invariant k <= |sorted| && forall i | 0 <= i < k :: rank(sorted[i].user) <= rank(state.user)
      {
        k := k + 1;
      }
      InsertedInOrder(rank, sorted, k, state);
      InsertedOnce(sorted, k, state);
      r := Inserted(sorted, k, state);
    }

    /** Exactly the states of those in a channel, each once and in the order of their user IDs. */
    method List(channel: ID) returns (states: seq<State>)
      requires Ok()
      ensures forall s :: s in states <==> s.user in entries && entries[s.user].state == s && s.channel == Some(channel)
      ensures forall i, j | 0 <= i < j < |states| :: rank(states[i].user) < rank(states[j].user)
    {
      var found: seq<State> := [];
      var pending := entries.Keys;
      while pending != {}
        invariant pending <= entries.Keys
        invariant forall s :: s in found <==>
          s.user in entries && s.user !in pending && entries[s.user].state == s && s.channel == Some(channel)
        invariant forall s :: multiset(found)[s] <= 1
        decreases pending
      {
        var user :| user in pending;
        if entries[user].state.channel == Some(channel) {
          assert entries[user].state !in found;
          found := found + [entries[user].state];
        }
        pending := pending - {user};
      }
      states := SortStates(found);
      SameElements(states, found);
      EachOnce(states);
      assert forall i | 0 <= i < |states| :: states[i] in states;
    }
  }

  lemma SameElements(a: seq<State>, b: seq<State>)
    requires multiset(a) == multiset(b)
    ensures forall s :: s in a <==> s in b
  {
    assert forall s :: s in a <==> s in multiset(a);
    assert forall s :: s in b <==> s in multiset(b);
  }

  lemma EachOnce(states: seq<State>)
    requires forall s :: multiset(states)[s] <= 1
    ensures forall i, j | 0 <= i < j < |states| :: states[i] != states[j]
  {
    forall i, j | 0 <= i < j < |states|
      ensures states[i] != states[j]
    {
      var front, back := states[..j], states[j..];
      assert states == front + back;
      assert front[i] in multiset(front) && back[0] in multiset(back);
      assert multiset(states)[back[0]] == multiset(front)[back[0]] + multiset(back)[back[0]];
    }
  }
}
