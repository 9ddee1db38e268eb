/**
  The voice registry of internal/voice/service.go: who is in which voice channel, the notices that
  tell the guilds, and the rooms that are closed at the provider.
*/
module VoiceRegistry {
  import opened Common

  /** Flags are mute, deaf, video and stream. Channel and session are absent once the user left. */
  datatype State = State(
    user: ID, channel: Option<ID>, session: Option<ID>,
    mute: bool, deaf: bool, video: bool, stream: bool, updated: Time)

  datatype Entry = Entry(state: State, guild: ID)

  type Entries = map<ID, Entry>

  /** What leaves the service, in order: a notice to a guild, or a provider room closed for a user. */
  datatype Effect = Notified(guild: ID, state: State) | Closed(room: ID, user: ID)

  datatype Update = Update(mute: Option<bool>, deaf: Option<bool>, video: Option<bool>, stream: Option<bool>)

  datatype Error = Unavailable | NotFound | Forbidden | Denied

  /** What a member may do in a voice channel they may connect to. */
  datatype Grant = Grant(speak: bool, stream: bool)

  function LeftState(user: ID, now: Time): State {
    State(user, None, None, false, false, false, false, now)
  }

  function Chosen(value: Option<bool>, current: bool): bool {
    if value.Some? then value.value else current
  }

  function WithFlags(state: State, update: Update, now: Time): State {
    state.(mute := Chosen(update.mute, state.mute), deaf := Chosen(update.deaf, state.deaf),
           video := Chosen(update.video, state.video), stream := Chosen(update.stream, state.stream), updated := now)
  }

  predicate WantsStream(update: Update) {
    update.video == Some(true) || update.stream == Some(true)
  }

  // ---------- The calls, one after the other ----------

  datatype Voice = Voice(entries: Entries, log: seq<Effect>)

  /** What happens to a stay that ends: its room is closed, then its guild is told. */
  function Farewell(entry: Entry, user: ID, now: Time): seq<Effect>
    requires entry.state.channel.Some?
  {
    [Closed(entry.state.channel.value, user), Notified(entry.guild, LeftState(user, now))]
  }

  /** Every entry is of its user, in a channel of its guild, with a session. */
  ghost predicate Valid(entries: Entries, guildOf: ID -> ID) {
    forall u | u in entries ::
      && entries[u].state.user == u && entries[u].state.channel.Some? && entries[u].state.session.Some?
      && entries[u].guild == guildOf(entries[u].state.channel.value)
  }

  function Join(v: Voice, user: ID, channel: ID, session: ID, mute: bool, deaf: bool, now: Time, guildOf: ID -> ID): Voice
    requires user in v.entries ==> v.entries[user].state.channel.Some?
  {
    var state := State(user, Some(channel), Some(session), mute, deaf, false, false, now);
    var farewell := if user in v.entries && v.entries[user].state.channel.value != channel
                    then Farewell(v.entries[user], user, now) else [];
    Voice(v.entries[user := Entry(state, guildOf(channel))], v.log + farewell + [Notified(guildOf(channel), state)])
  }

  function Evict(v: Voice, user: ID, now: Time): Voice
    requires user in v.entries ==> v.entries[user].state.channel.Some?
  {
    if user !in v.entries then v
    else Voice(v.entries - {user}, v.log + Farewell(v.entries[user], user, now))
  }

  function SetFlags(v: Voice, user: ID, update: Update, now: Time): Voice
    requires user in v.entries
  {
    var entry := v.entries[user];
    var state := WithFlags(entry.state, update, now);
    Voice(v.entries[user := entry.(state := state)], v.log + [Notified(entry.guild, state)])
  }

  datatype Call =
    | Joining(user: ID, channel: ID, session: ID, mute: bool, deaf: bool)
    | Updating(user: ID, update: Update)
    | Leaving(user: ID)

  /** One call with the authorization its channel gives, if any. */
  function Step(v: Voice, c: Call, grant: Option<Grant>, now: Time, guildOf: ID -> ID): (Voice, Option<Error>)
    requires forall u | u in v.entries :: v.entries[u].state.channel.Some?
  {
    match c
    case Joining(user, channel, session, mute, deaf) =>
      if grant.None? then (v, Some(Denied)) else (Join(v, user, channel, session, mute, deaf, now, guildOf), None)
    case Updating(user, update) =>
      if user !in v.entries then (v, Some(NotFound))
      else if grant.None? then (Evict(v, user, now), Some(Denied))
      else if WantsStream(update) && !grant.value.stream then (v, Some(Forbidden))
      else (SetFlags(v, user, update, now), None)
    case Leaving(user) =>
      if user !in v.entries then (v, Some(NotFound)) else (Evict(v, user, now), None)
  }

  // ---------- When calls succeed, and what they do ----------

  /** A flag ends as what was asked for, or as it was. */
  predicate FlagIs(flag: bool, asked: Option<bool>, was: bool) {
    (asked == Some(true) ==> flag) && (asked == Some(false) ==> !flag) && (asked.None? ==> flag == was)
  }

  ghost predicate OthersStay(v: Voice, v': Voice, user: ID) {
    forall other | other != user ::
      (other in v'.entries <==> other in v.entries) && (other in v.entries ==> v'.entries[other] == v.entries[other])
  }

  /** The stay of a user has ended, and its room and guild were told. */
  ghost predicate Ended(v: Voice, v': Voice, user: ID, now: Time)
    requires user in v.entries && v.entries[user].state.channel.Some?
  {
    && user !in v'.entries && |v'.log| == |v.log| + 2 && v.log <= v'.log
    && v'.log[|v.log|] == Closed(v.entries[user].state.channel.value, user)
    && v'.log[|v.log| + 1] == Notified(v.entries[user].guild, State(user, None, None, false, false, false, false, now))
  }

  /**
    Who may connect is in the channel afterwards, with the flags asked for, no video and no stream; and
    a stay in another channel ends before the guild is told. Anyone else changes nothing.
  */
  lemma JoinOutcome(v: Voice, c: Call, grant: Option<Grant>, now: Time, guildOf: ID -> ID)
    requires Valid(v.entries, guildOf) && c.Joining?
    ensures var (v', err) := Step(v, c, grant, now, guildOf);
            && (err.None? <==> grant.Some?) && (err.Some? ==> err == Some(Denied) && v' == v)
            && OthersStay(v, v', c.user)
            && (err.None? ==>
                  && c.user in v'.entries && v'.entries[c.user].guild == guildOf(c.channel)
                  && var state := v'.entries[c.user].state;
                     && state.user == c.user && state.channel == Some(c.channel) && state.session == Some(c.session)
                     && state.mute == c.mute && state.deaf == c.deaf && !state.video && !state.stream && state.updated == now
                     && v'.log != [] && v'.log[|v'.log| - 1] == Notified(guildOf(c.channel), state)
                     && if c.user in v.entries && v.entries[c.user].state.channel != Some(c.channel) then
                          Ended(v, Voice(v'.entries - {c.user}, v'.log[..|v'.log| - 1]), c.user, now)
                        else v'.log[..|v'.log| - 1] == v.log)
  {
    hide Truthful, Believed;
  }

  /**
    Who is in a channel, may still connect to it, and may stream if they turn video or streaming on, has
    each flag set as asked and the others kept. Who may not connect any more is put out.
  */
  lemma UpdateOutcome(v: Voice, c: Call, grant: Option<Grant>, now: Time, guildOf: ID -> ID)
    requires Valid(v.entries, guildOf) && c.Updating?
    ensures var (v', err) := Step(v, c, grant, now, guildOf);
            var streams := c.update.video == Some(true) || c.update.stream == Some(true);
            && (err.None? <==> c.user in v.entries && grant.Some? && (streams ==> grant.value.stream))
            && (err == Some(NotFound) <==> c.user !in v.entries)
            && (err == Some(Denied) <==> c.user in v.entries && grant.None?)
            && err != Some(Unavailable)
            && OthersStay(v, v', c.user)
            && (err == Some(NotFound) || err == Some(Forbidden) ==> v' == v)
            && (err == Some(Denied) ==> Ended(v, v', c.user, now))
            && (err.None? ==>
                  && c.user in v'.entries && v'.entries[c.user].guild == v.entries[c.user].guild
                  && var state, was := v'.entries[c.user].state, v.entries[c.user].state;
                     && state.user == was.user && state.channel == was.channel && state.session == was.session
                     && FlagIs(state.mute, c.update.mute, was.mute) && FlagIs(state.deaf, c.update.deaf, was.deaf)
                     && FlagIs(state.video, c.update.video, was.video) && FlagIs(state.stream, c.update.stream, was.stream)
                     && state.updated == now && v'.log == v.log + [Notified(v.entries[c.user].guild, state)])
  {
  }

  /** Who is in a channel is in none afterwards. */
  lemma LeaveOutcome(v: Voice, c: Call, grant: Option<Grant>, now: Time, guildOf: ID -> ID)
    requires Valid(v.entries, guildOf) && c.Leaving?
    ensures var (v', err) := Step(v, c, grant, now, guildOf);
            && (err.None? <==> c.user in v.entries) && (err.Some? ==> err == Some(NotFound) && v' == v)
            && OthersStay(v, v', c.user) && (err.None? ==> Ended(v, v', c.user, now))
  {
  }

  // ---------- What the notices say ----------

  datatype Seat = Seat(guild: ID, user: ID)

  function Heard(seats: map<Seat, State>, effect: Effect): map<Seat, State> {
    match effect
    case Closed(_, _) => seats
    case Notified(guild, state) =>
      if state.channel.Some? then seats[Seat(guild, state.user) := state] else seats - {Seat(guild, state.user)}
  }

  /** What a listener that keeps the last notice of each guild and user believes. */
  function Believed(log: seq<Effect>): map<Seat, State> {
    if log == [] then map[] else Heard(Believed(log[..|log| - 1]), log[|log| - 1])
  }

  /** The truth, in the listener's terms. */
  ghost predicate Truthful(v: Voice) {
    && (forall u | u in v.entries :: Seat(v.entries[u].guild, u) in Believed(v.log)
                                  && Believed(v.log)[Seat(v.entries[u].guild, u)] == v.entries[u].state)
    && forall s | s in Believed(v.log) :: s.user in v.entries && v.entries[s.user].guild == s.guild
  }

  /** A left notice comes right after the close of the room the listener had seen the user in. */
  ghost predicate GoodbyeAt(log: seq<Effect>, i: nat)
    requires i < |log|
  {
    log[i].Notified? && log[i].state.channel.None? ==>
      && i > 0 && log[i - 1].Closed? && log[i - 1].user == log[i].state.user
      && var seats := Believed(log[..i - 1]); var seat := Seat(log[i].guild, log[i].state.user);
         seat in seats && seats[seat].channel == Some(log[i - 1].room)
  }

  /** And nothing else is ever closed. */
  ghost predicate ClosedAt(log: seq<Effect>, i: nat)
    requires i < |log|
  {
    log[i].Closed? ==>
      i + 1 < |log| && log[i + 1].Notified? && log[i + 1].state.channel.None? && log[i + 1].state.user == log[i].user
  }

  /** Nobody is announced in a room while the listener still sees them in another one. */
  ghost predicate ArrivalAt(log: seq<Effect>, i: nat)
    requires i < |log|
  {
    log[i].Notified? && log[i].state.channel.Some? ==>
      var seats := Believed(log[..i]);
      forall s | s in seats && s.user == log[i].state.user ::
        s.guild == log[i].guild && seats[s].channel == log[i].state.channel
  }

  ghost predicate Orderly(log: seq<Effect>) {
    forall i | 0 <= i < |log| :: GoodbyeAt(log, i) && ClosedAt(log, i) && ArrivalAt(log, i)
  }

  ghost predicate Inv(v: Voice, guildOf: ID -> ID) {
    Valid(v.entries, guildOf) && Truthful(v) && Orderly(v.log)
  }

  lemma BelievedAppend(log: seq<Effect>, effect: Effect)
    ensures Believed(log + [effect]) == Heard(Believed(log), effect)
  {
    assert (log + [effect])[..|log|] == log;
  }

  lemma OrderlyAppend(log: seq<Effect>, effect: Effect)
    requires Orderly(log) && effect.Notified? && effect.state.channel.Some?
    requires forall s | s in Believed(log) && s.user == effect.state.user ::
               s.guild == effect.guild && Believed(log)[s].channel == effect.state.channel
    ensures Orderly(log + [effect])
  {
    var log' := log + [effect];
    forall i | 0 <= i < |log'|
      ensures GoodbyeAt(log', i) && ClosedAt(log', i) && ArrivalAt(log', i)
    {
      assert log'[..i] == log[..i];
      if i < |log| {
        assert GoodbyeAt(log, i) && ClosedAt(log, i) && ArrivalAt(log, i);
        if i > 0 {
          assert log'[..i - 1] == log[..i - 1];
        }
      } else {
        assert log[..i] == log;
      }
    }
  }

  lemma OrderlyFarewell(log: seq<Effect>, entry: Entry, user: ID, now: Time)
    requires Orderly(log) && entry.state.channel.Some?
    requires Seat(entry.guild, user) in Believed(log)
          && Believed(log)[Seat(entry.guild, user)].channel == entry.state.channel
    ensures Orderly(log + Farewell(entry, user, now))
  {
    var log' := log + Farewell(entry, user, now);
    forall i | 0 <= i < |log'|
      ensures GoodbyeAt(log', i) && ClosedAt(log', i) && ArrivalAt(log', i)
    {
      if i < |log| {
        assert log'[..i] == log[..i];
        assert GoodbyeAt(log, i) && ClosedAt(log, i) && ArrivalAt(log, i);
        if i > 0 {
          assert log'[..i - 1] == log[..i - 1];
        }
      } else if i == |log| + 1 {
        assert log'[..i - 1] == log;
      }
    }
  }

  lemma BelievedFarewell(log: seq<Effect>, entry: Entry, user: ID, now: Time)
    requires entry.state.channel.Some?
    ensures Believed(log + Farewell(entry, user, now)) == Believed(log) - {Seat(entry.guild, user)}
  {
    var closed := Farewell(entry, user, now)[0];
    var left := Farewell(entry, user, now)[1];
    BelievedAppend(log, closed);
    BelievedAppend(log + [closed], left);
    assert log + Farewell(entry, user, now) == log + [closed] + [left];
  }

  lemma EvictKeeps(v: Voice, user: ID, now: Time, guildOf: ID -> ID)
    requires Inv(v, guildOf)
    ensures Inv(Evict(v, user, now), guildOf)
  {
    if user in v.entries {
      BelievedFarewell(v.log, v.entries[user], user, now);
      OrderlyFarewell(v.log, v.entries[user], user, now);
    }
  }

  /** Saying where a user is now, after any earlier stay elsewhere has been ended. */
  lemma NoticeKeeps(v: Voice, user: ID, state: State, guildOf: ID -> ID)
    requires Inv(v, guildOf) && state.user == user && state.channel.Some? && state.session.Some?
    requires user in v.entries ==> v.entries[user].state.channel == state.channel
    ensures var guild := guildOf(state.channel.value);
            Inv(Voice(v.entries[user := Entry(state, guild)], v.log + [Notified(guild, state)]), guildOf)
  {
    hide Orderly, Believed;
    var effect := Notified(guildOf(state.channel.value), state);
    BelievedAppend(v.log, effect);
    OrderlyAppend(v.log, effect);
  }

  lemma StepKeeps(v: Voice, c: Call, grant: Option<Grant>, now: Time, guildOf: ID -> ID)
    requires Inv(v, guildOf)
    ensures Inv(Step(v, c, grant, now, guildOf).0, guildOf)
  {
    hide Truthful, Orderly, Believed, Farewell;
    match c
    case Joining(user, channel, session, mute, deaf) =>
      if grant.Some? {
        var state := State(user, Some(channel), Some(session), mute, deaf, false, false, now);
        if user in v.entries && v.entries[user].state.channel.value != channel {
          var gone := Evict(v, user, now);
          EvictKeeps(v, user, now, guildOf);
          NoticeKeeps(gone, user, state, guildOf);
          assert gone.entries[user := Entry(state, guildOf(channel))] == v.entries[user := Entry(state, guildOf(channel))];
        } else {
          NoticeKeeps(v, user, state, guildOf);
          assert v.log + [] == v.log;
        }
      }
    case Updating(user, update) =>
      if user in v.entries {
        EvictKeeps(v, user, now, guildOf);
        NoticeKeeps(v, user, WithFlags(v.entries[user].state, update, now), guildOf);
      }
    case Leaving(user) =>
      EvictKeeps(v, user, now, guildOf);
  }

  datatype Request = Request(call: Call, grant: Option<Grant>, now: Time)

  ghost function Run(v: Voice, requests: seq<Request>, guildOf: ID -> ID): Voice
    requires Inv(v, guildOf)
    decreases |requests|
  {
    if requests == [] then v
    else
      var r := requests[0];
      StepKeeps(v, r.call, r.grant, r.now, guildOf);
      Run(Step(v, r.call, r.grant, r.now, guildOf).0, requests[1..], guildOf)
  }

  lemma {:induction false} RunKeeps(v: Voice, requests: seq<Request>, guildOf: ID -> ID)
    requires Inv(v, guildOf)
    ensures Inv(Run(v, requests, guildOf), guildOf)
    decreases |requests|
  {
    hide Truthful, Orderly, Step;
    if requests != [] {
      var r := requests[0];
      StepKeeps(v, r.call, r.grant, r.now, guildOf);
      RunKeeps(Step(v, r.call, r.grant, r.now, guildOf).0, requests[1..], guildOf);
    }
  }

  lemma EmptyInv(guildOf: ID -> ID)
    ensures Inv(Voice(map[], []), guildOf)
  {
  }

  /** After any calls, whoever folds the notices knows exactly who is where. */
  lemma NoticesTellTheTruth(requests: seq<Request>, guildOf: ID -> ID)
    ensures Inv(Voice(map[], []), guildOf)
    ensures var v := Run(Voice(map[], []), requests, guildOf);
            && (forall s :: s in Believed(v.log) <==> s.user in v.entries && v.entries[s.user].guild == s.guild)
            && (forall s | s in Believed(v.log) :: Believed(v.log)[s] == v.entries[s.user].state)
  {
    hide Believed;
    EmptyInv(guildOf);
    RunKeeps(Voice(map[], []), requests, guildOf);
    var v := Run(Voice(map[], []), requests, guildOf);
    assert Truthful(v);
    forall s: Seat | s.user in v.entries && v.entries[s.user].guild == s.guild
      ensures s in Believed(v.log)
    {
      assert s == Seat(v.entries[s.user].guild, s.user);
    }
  }

  /** Every stay that ends closes its room once, right before the notice that it ended; no room is closed otherwise. */
  lemma RoomsCloseOnce(requests: seq<Request>, guildOf: ID -> ID, i: nat)
    ensures Inv(Voice(map[], []), guildOf)
    ensures var log := Run(Voice(map[], []), requests, guildOf).log;
            i < |log| ==> GoodbyeAt(log, i) && ClosedAt(log, i) && ArrivalAt(log, i)
  {
    EmptyInv(guildOf);
    RunKeeps(Voice(map[], []), requests, guildOf);
  }
}
