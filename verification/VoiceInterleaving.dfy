/**
  The voice calls as their lock sections really interleave: UpdateState reads its session under the
  lock, asks for authorization without it, and writes under the lock again, while other calls join,
  move and evict. Notices and provider calls happen outside the lock and are left out here.
*/
module VoiceInterleaving {
  import opened Common
  import opened VoiceRegistry

  datatype Step =
    | JoinWrites(user: ID, channel: ID, session: ID, guild: ID, mute: bool, deaf: bool, now: Time)
    | EvictWrites(user: ID)
    | UpdateReads(call: ID, user: ID)
    | UpdateWrites(call: ID, update: Update, now: Time)

  /** What a call in flight has read. */
  datatype Seen = Seen(user: ID, session: ID)

  /** The shared map, the calls between their two sections, and every session ID drawn so far. */
  datatype World = World(entries: Entries, inFlight: map<ID, Seen>, drawn: set<ID>)

  predicate Enabled(w: World, step: Step) {
    match step
    case JoinWrites(_, _, session, _, _, _, _) => session !in w.drawn
    case EvictWrites(_) => true
    case UpdateReads(call, user) =>
      call !in w.inFlight && user in w.entries && w.entries[user].state.session.Some?
    case UpdateWrites(call, _, _) => call in w.inFlight
  }

  /** The second section of UpdateState finds the session it read. */
  predicate Succeeds(w: World, call: ID) {
    && call in w.inFlight && w.inFlight[call].user in w.entries
    && w.entries[w.inFlight[call].user].state.session == Some(w.inFlight[call].session)
  }

  function Apply(w: World, step: Step): World
    requires Enabled(w, step)
  {
    match step
    case JoinWrites(user, channel, session, guild, mute, deaf, now) =>
      var state := State(user, Some(channel), Some(session), mute, deaf, false, false, now);
      w.(entries := w.entries[user := Entry(state, guild)], drawn := w.drawn + {session})
    case EvictWrites(user) => w.(entries := w.entries - {user})
    case UpdateReads(call, user) => w.(inFlight := w.inFlight[call := Seen(user, w.entries[user].state.session.value)])
    case UpdateWrites(call, update, now) =>
      if !Succeeds(w, call) then w.(inFlight := w.inFlight - {call})
      else
        var entry := w.entries[w.inFlight[call].user];
        World(w.entries[w.inFlight[call].user := entry.(state := WithFlags(entry.state, update, now))],
              w.inFlight - {call}, w.drawn)
  }

  ghost predicate Possible(w: World, steps: seq<Step>)
    decreases |steps|
  {
    steps == [] || (Enabled(w, steps[0]) && Possible(Apply(w, steps[0]), steps[1..]))
  }

  function Run(w: World, steps: seq<Step>): World
    requires Possible(w, steps)
    decreases |steps|
  {
    if steps == [] then w else Run(Apply(w, steps[0]), steps[1..])
  }

  ghost predicate Inv(w: World) {
    && (forall u | u in w.entries :: w.entries[u].state.user == u)
    && (forall u | u in w.entries :: w.entries[u].state.session.Some? && w.entries[u].state.session.value in w.drawn)
    && (forall u, v | u in w.entries && v in w.entries && w.entries[u].state.session == w.entries[v].state.session :: u == v)
    && forall c | c in w.inFlight :: w.inFlight[c].session in w.drawn
  }

  /** The user holds this very session. */
  predicate Holds(w: World, user: ID, session: ID) {
    user in w.entries && w.entries[user].state.session == Some(session)
  }

  /** The same stay: one user, room, guild and session. */
  predicate SameStay(a: Entry, b: Entry) {
    a.guild == b.guild && a.state.user == b.state.user && a.state.channel == b.state.channel
    && a.state.session == b.state.session
  }

  lemma ApplyInv(w: World, step: Step)
    requires Inv(w) && Enabled(w, step)
    ensures Inv(Apply(w, step)) && w.drawn <= Apply(w, step).drawn
  {
  }

  lemma StepKeepsStay(w: World, step: Step, user: ID, session: ID)
    requires Inv(w) && Enabled(w, step) && session in w.drawn
    ensures Holds(Apply(w, step), user, session) ==>
              Holds(w, user, session) && SameStay(Apply(w, step).entries[user], w.entries[user])
    ensures forall c | c in w.inFlight && c in Apply(w, step).inFlight :: Apply(w, step).inFlight[c] == w.inFlight[c]
  {
  }

  /** A drawn session that a user holds after a run was held before it, in the same room; it never comes back. */
  lemma {:induction false} SessionsNeverReturn(w: World, steps: seq<Step>, user: ID, session: ID)
    requires Inv(w) && Possible(w, steps) && session in w.drawn
    ensures Inv(Run(w, steps))
    ensures Holds(Run(w, steps), user, session) ==>
              Holds(w, user, session) && SameStay(Run(w, steps).entries[user], w.entries[user])
    decreases |steps|
  {
    hide Inv, Enabled, Apply;
    if steps != [] {
      ApplyInv(w, steps[0]);
      StepKeepsStay(w, steps[0], user, session);
      SessionsNeverReturn(Apply(w, steps[0]), steps[1..], user, session);
    }
  }

  /** Only the call's own second section takes its reading away. */
  predicate Writes(step: Step, call: ID) {
    step.UpdateWrites? && step.call == call
  }

  lemma {:induction false} ReadingStays(w: World, steps: seq<Step>, call: ID)
    requires Possible(w, steps) && call in w.inFlight && forall s | s in steps :: !Writes(s, call)
    ensures call in Run(w, steps).inFlight && Run(w, steps).inFlight[call] == w.inFlight[call]
    decreases |steps|
  {
    hide Succeeds;
    if steps != [] {
      assert steps[0] in steps;
      assert forall s | s in steps[1..] :: s in steps;
      ReadingStays(Apply(w, steps[0]), steps[1..], call);
    }
  }

  lemma {:induction false} RunSplits(w: World, a: seq<Step>, b: seq<Step>)
    requires Possible(w, a + b)
    ensures Possible(w, a) && Possible(Run(w, a), b) && Run(w, a + b) == Run(Run(w, a), b)
    decreases |a|
  {
    hide Apply, Enabled;
    if a == [] {
      assert a + b == b;
    } else {
      assert (a + b)[0] == a[0] && (a + b)[1..] == a[1..] + b;
      RunSplits(Apply(w, a[0]), a[1..], b);
    }
  }

  /**
    Whatever runs between the two sections of UpdateState: if the second succeeds, the user held the
    session it read at every moment between, in one and the same room, and only flags change now.
  */
  lemma UpdateHitsTheSessionItRead(
    w: World, call: ID, user: ID, before: seq<Step>, after: seq<Step>, update: Update, now: Time)
    requires Inv(w) && Enabled(w, UpdateReads(call, user))
    requires Possible(Apply(w, UpdateReads(call, user)), before + after)
    requires forall s | s in before + after :: !Writes(s, call)
    requires Succeeds(Run(Apply(w, UpdateReads(call, user)), before + after), call)
    ensures var read := Apply(w, UpdateReads(call, user));
            Possible(read, before)
            && var between, last := Run(read, before), Run(read, before + after);
               var session := w.entries[user].state.session.value;
               && Holds(between, user, session) && Holds(last, user, session)
               && SameStay(between.entries[user], w.entries[user]) && SameStay(last.entries[user], w.entries[user])
               && Enabled(last, UpdateWrites(call, update, now))
               && Apply(last, UpdateWrites(call, update, now)).entries
                  == last.entries[user := last.entries[user].(state := WithFlags(last.entries[user].state, update, now))]
  {
    var read := Apply(w, UpdateReads(call, user));
    var session := w.entries[user].state.session.value;
    ApplyInv(w, UpdateReads(call, user));
    hide Inv;
    assert session in read.drawn by { SessionDrawn(w, user); }
    RunSplits(read, before, after);
    ReadingStays(read, before + after, call);
    var between := Run(read, before);
    SessionsNeverReturn(read, before, user, session);
    DrawnStays(read, before, session);
    SessionsNeverReturn(between, after, user, session);
  }

  lemma SessionDrawn(w: World, user: ID)
    requires Inv(w) && user in w.entries
    ensures w.entries[user].state.session.Some? && w.entries[user].state.session.value in w.drawn
  {
  }

  lemma {:induction false} DrawnStays(w: World, steps: seq<Step>, session: ID)
    requires Possible(w, steps) && session in w.drawn
    ensures session in Run(w, steps).drawn
    decreases |steps|
  {
    if steps != [] {
      DrawnStays(Apply(w, steps[0]), steps[1..], session);
    }
  }

  /** If the session ended in between, the second section refuses and changes nobody. */
  lemma EndedSessionsStayEnded(w: World, steps: seq<Step>, call: ID, update: Update, now: Time)
    requires Inv(w) && Possible(w, steps) && call in w.inFlight && forall s | s in steps :: !Writes(s, call)
    requires !Holds(w, w.inFlight[call].user, w.inFlight[call].session)
    ensures var last := Run(w, steps);
            && !Succeeds(last, call) && Enabled(last, UpdateWrites(call, update, now))
            && Apply(last, UpdateWrites(call, update, now)).entries == last.entries
  {
    ReadingStays(w, steps, call);
    SessionsNeverReturn(w, steps, w.inFlight[call].user, w.inFlight[call].session);
  }

  /**
    The second section succeeds exactly if the user still holds the session that was read; each flag is
    then as asked or as it just was, and nothing else of anybody has changed.
  */
  lemma UpdateSucceedsIffStillHeld(w: World, call: ID, user: ID, between: seq<Step>, update: Update, now: Time)
    requires Inv(w) && Enabled(w, UpdateReads(call, user))
    requires Possible(Apply(w, UpdateReads(call, user)), between) && forall s | s in between :: !Writes(s, call)
    ensures var last := Run(Apply(w, UpdateReads(call, user)), between);
            var held := user in last.entries && last.entries[user].state.session == w.entries[user].state.session;
            && Enabled(last, UpdateWrites(call, update, now))
            && var after := Apply(last, UpdateWrites(call, update, now)).entries;
               && after.Keys == last.entries.Keys
               && (forall other | other in after && (other != user || !held) :: after[other] == last.entries[other])
               && (held ==>
                     var state, was := after[user].state, last.entries[user].state;
                     && SameStay(after[user], last.entries[user]) && state.updated == now
                     && FlagIs(state.mute, update.mute, was.mute) && FlagIs(state.deaf, update.deaf, was.deaf)
                     && FlagIs(state.video, update.video, was.video) && FlagIs(state.stream, update.stream, was.stream))
  {
    hide Inv;
    ReadingStays(Apply(w, UpdateReads(call, user)), between, call);
    hide Possible, Run;
  }
}
