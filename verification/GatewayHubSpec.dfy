/**
  The hub of internal/gateway/hub.go on values: its two indexes, its sessions, the
  connections and the full log of every session there ever was. Every step is a function;
  scheduling, clock readings and fresh identifiers are parameters.
*/
module GatewayHubSpec {
  import opened Common
  import opened GatewayProtocol
  import opened GatewayClient

  const MAX_SESSIONS: nat := 10_000
  const MAX_SESSIONS_PER_USER: nat := 10

  datatype SessionState = SessionState(
    user: ID, intents: Intents, sequence: int, events: seq<StoredEvent>,
    client: Option<ID>, disconnectedAt: Option<Time>)

  /** Everything a session was ever sent, kept after the session is gone. */
  datatype History = History(user: ID, intents: Intents, log: seq<Event>)

  datatype HubState = HubState(
    bufferSize: nat, retention: Time,
    sessions: map<ID, SessionState>, byUser: map<ID, set<ID>>,
    conns: map<ID, Conn>, history: map<ID, History>, gone: multiset<ID>)

  // ---------- Steps ----------

  /** appendEventLocked */
  function AppendEvent(events: seq<StoredEvent>, stored: StoredEvent, bufferSize: nat): seq<StoredEvent> {
    var all := events + [stored];
    if |all| > bufferSize then all[|all| - bufferSize..] else all
  }

  /** detachLocked, when the connection is the session's own */
  function Detached(s: SessionState, at: Time): SessionState {
    s.(client := None, disconnectedAt := Some(at))
  }

  /** dispatchLocked on one session and its connection, if it has one. */
  function Deliver(s: SessionState, conn: Option<Conn>, event: Event, e: Schedule, bufferSize: nat)
    : (SessionState, Option<Conn>)
  {
    var stored := StoredEvent(s.sequence + 1, event);
    var s' := s.(sequence := s.sequence + 1, events := AppendEvent(s.events, stored, bufferSize));
    match conn
    case None => (s', None)
    case Some(c) =>
      var (c', ok) := Offer(c, Dispatch(stored), e);
      (if ok then s' else Detached(s', e.at), Some(c'))
  }

  function ConnOf(conns: map<ID, Conn>, client: Option<ID>): Option<Conn> {
    if client.Some? && client.value in conns then Some(conns[client.value]) else None
  }

  function LogAppended(past: History, event: Event): History {
    past.(log := past.log + [event])
  }

  /** dispatchLocked in the hub. */
  function DispatchOne(h: HubState, sid: ID, event: Event, e: Schedule): HubState
    requires sid in h.sessions && sid in h.history
  {
    var s := h.sessions[sid];
    var (s', c) := Deliver(s, ConnOf(h.conns, s.client), event, e, h.bufferSize);
    h.(sessions := h.sessions[sid := s'],
       history := h.history[sid := LogAppended(h.history[sid], event)],
       conns := if c.Some? && s.client.Some? then h.conns[s.client.value := c.value] else h.conns)
  }

  predicate Expired(s: SessionState, now: Time, retention: Time) {
    s.disconnectedAt.Some? && now - s.disconnectedAt.value >= retention
  }

  /** One session taken out of the user index, with an emptied inner map. */
  function Unindexed(byUser: map<ID, set<ID>>, user: ID, sid: ID): map<ID, set<ID>>
    requires user in byUser
  {
    if byUser[user] - {sid} == {} then byUser - {user} else byUser[user := byUser[user] - {sid}]
  }

  /** removeLocked */
  function RemoveOne(h: HubState, sid: ID): HubState
    requires sid in h.sessions && h.sessions[sid].user in h.byUser
  {
    var user := h.sessions[sid].user;
    h.(sessions := h.sessions - {sid},
       byUser := Unindexed(h.byUser, user, sid),
       gone := if h.byUser[user] - {sid} == {} then h.gone + multiset{user} else h.gone)
  }

  /** Users all of whose sessions are among the dead. */
  function LosingAll(byUser: map<ID, set<ID>>, dead: set<ID>): set<ID> {
    set u | u in byUser && byUser[u] <= dead
  }

  function Survivors(byUser: map<ID, set<ID>>, dead: set<ID>): map<ID, set<ID>> {
    map u | u in byUser && !(byUser[u] <= dead) :: byUser[u] - dead
  }

  /** The dead sessions removed, and each user who thereby has none left reported once. */
  function RemoveAll(h: HubState, dead: set<ID>): HubState {
    h.(sessions := h.sessions - dead,
       byUser := Survivors(h.byUser, dead),
       gone := h.gone + multiset(LosingAll(h.byUser, dead)))
  }

  function ExpiredSessions(h: HubState, now: Time): set<ID> {
    set sid | sid in h.sessions && Expired(h.sessions[sid], now, h.retention)
  }

  /** pruneLocked */
  function Prune(h: HubState, now: Time): HubState {
    RemoveAll(h, ExpiredSessions(h, now))
  }

  predicate AtCapacity(h: HubState, user: ID) {
    |h.sessions| >= MAX_SESSIONS || (user in h.byUser && |h.byUser[user]| >= MAX_SESSIONS_PER_USER)
  }

  /** One session added to the user index. */
  function Reindexed(byUser: map<ID, set<ID>>, user: ID, sid: ID): map<ID, set<ID>> {
    byUser[user := (if user in byUser then byUser[user] else {}) + {sid}]
  }

  /** identify after pruning and the capacity check; sid is the fresh UUID. */
  function Opened(h: HubState, sid: ID, user: ID, intents: Intents, cid: ID, e: Schedule): HubState
    requires cid in h.conns
  {
    var first := StoredEvent(0, Ready(sid));
    var (c, ok) := Offer(h.conns[cid].(binding := Some(Binding(sid, 0))), Dispatch(first), e);
    var s := SessionState(user, intents, 0, AppendEvent([], first, h.bufferSize), Some(cid), None);
    h.(sessions := h.sessions[sid := if ok then s else Detached(s, e.at)],
       byUser := Reindexed(h.byUser, user, sid),
       conns := h.conns[cid := c],
       history := h.history[sid := History(user, intents, [Ready(sid)])])
  }

  /** identify: the new state, and whether a session was created. */
  function Identify(h: HubState, sid: ID, user: ID, intents: Intents, cid: ID, now: Time, e: Schedule)
    : (HubState, bool)
    requires cid in h.conns
  {
    var h1 := Prune(h, now);
    if AtCapacity(h1, user) then (h1, false) else (Opened(h1, sid, user, intents, cid, e), true)
  }

  /** The checks of resume. */
  predicate Resumable(h: HubState, user: ID, sid: ID, after: int) {
    && sid in h.sessions
    && h.sessions[sid].user == user
    && 0 <= after <= h.sessions[sid].sequence
    && !(|h.sessions[sid].events| > 0 && after < h.sessions[sid].events[0].sequence - 1)
  }

  /** The replay loop of resume from index i on; schedule i belongs to buffered event i. */
  function Replay(c: Conn, events: seq<StoredEvent>, after: int, i: nat, schedule: nat -> Schedule): (Conn, bool, Time)
    requires i <= |events|
    decreases |events| - i
  {
    if i == |events| then (c, true, 0)
    else if events[i].sequence > after then
      var (c', ok) := Offer(c, Dispatch(events[i]), schedule(i));
      if ok then Replay(c', events, after, i + 1, schedule) else (c', false, schedule(i).at)
    else Replay(c, events, after, i + 1, schedule)
  }

  /** The connection that was current, if another one, is terminated. */
  function Superseded(conns: map<ID, Conn>, previous: Option<ID>, cid: ID): map<ID, Conn> {
    if previous.Some? && previous.value != cid && previous.value in conns
    then conns[previous.value := conns[previous.value].(done := true)] else conns
  }

  /** resume has passed its checks: the new connection is attached and given the replay. */
  function Replayed(h: HubState, sid: ID, after: nat, cid: ID, schedule: nat -> Schedule): (HubState, bool)
    requires sid in h.sessions && cid in h.conns
  {
    var s := h.sessions[sid].(client := Some(cid), disconnectedAt := None);
    var conns := Superseded(h.conns, h.sessions[sid].client, cid);
    var (c, ok, at) := Replay(conns[cid].(binding := Some(Binding(sid, after + 1))), s.events, after, 0, schedule);
    (h.(sessions := h.sessions[sid := if ok then s else Detached(s, at)], conns := conns[cid := c]), ok)
  }

  /** resume after its checks: the new state and the answer. */
  function Resumption(h: HubState, sid: ID, after: nat, cid: ID, schedule: nat -> Schedule): (HubState, bool)
    requires sid in h.sessions && sid in h.history && cid in h.conns
  {
    var (h1, ok) := Replayed(h, sid, after, cid, schedule);
    if !ok then (h1, false)
    else
      var h2 := DispatchOne(h1, sid, Resumed, schedule(|h.sessions[sid].events|));
      (h2, h2.sessions[sid].client.Some?)
  }

  function Resume(h: HubState, user: ID, sid: ID, after: int, cid: ID, now: Time, schedule: nat -> Schedule)
    : (HubState, bool)
    requires cid in h.conns && h.sessions.Keys <= h.history.Keys
  {
    var h1 := Prune(h, now);
    if Resumable(h1, user, sid, after) then Resumption(h1, sid, after, cid, schedule) else (h1, false)
  }

  /** detach: only the session's own connection detaches it. */
  function Detach(h: HubState, sid: ID, cid: ID, now: Time): HubState {
    if sid in h.sessions && h.sessions[sid].client == Some(cid)
    then h.(sessions := h.sessions[sid := Detached(h.sessions[sid], now)])
    else h
  }

  /** The sessions a publication reaches, each with the event it is owed. */
  function Owed(h: HubState, recipients: set<ID>, p: Publication): map<ID, Event> {
    map sid | sid in h.sessions && h.sessions[sid].user in recipients && EventFor(p, h.sessions[sid].intents).Some?
      :: EventFor(p, h.sessions[sid].intents).value
  }

  /** The session a connection is the current one of. */
  predicate Serves(sessions: map<ID, SessionState>, c: Conn, cid: ID) {
    && c.binding.Some?
    && c.binding.value.session in sessions
    && sessions[c.binding.value.session].client == Some(cid)
  }

  /** A connection after its session, if it serves one, was sent what it is owed. */
  function Fed(h: HubState, owed: map<ID, Event>, cid: ID, schedule: ID -> Schedule): Conn
    requires cid in h.conns
  {
    var c := h.conns[cid];
    if Serves(h.sessions, c, cid) && c.binding.value.session in owed then
      var sid := c.binding.value.session;
      Offer(c, Dispatch(StoredEvent(h.sessions[sid].sequence + 1, owed[sid])), schedule(sid)).0
    else c
  }

  function DeliverTo(h: HubState, owed: map<ID, Event>, sid: ID, schedule: ID -> Schedule): SessionState
    requires sid in h.sessions
  {
    var s := h.sessions[sid];
    if sid in owed then Deliver(s, ConnOf(h.conns, s.client), owed[sid], schedule(sid), h.bufferSize).0 else s
  }

  /** Each session with an event owed gets exactly that one; nothing else changes. */
  function DispatchAll(h: HubState, owed: map<ID, Event>, schedule: ID -> Schedule): HubState {
    h.(sessions := map sid | sid in h.sessions :: DeliverTo(h, owed, sid, schedule),
       history := map sid | sid in h.history ::
         if sid in owed then LogAppended(h.history[sid], owed[sid]) else h.history[sid],
       conns := map c | c in h.conns :: Fed(h, owed, c, schedule))
  }

  function Publish(h: HubState, recipients: set<ID>, p: Publication, now: Time, schedule: ID -> Schedule): HubState {
    var h1 := Prune(h, now);
    DispatchAll(h1, Owed(h1, recipients, p), schedule)
  }

  // ---------- What every step keeps ----------

  /** The two indexes describe the same sessions, with no empty inner map. */
  ghost predicate Indexed(sessions: map<ID, SessionState>, byUser: map<ID, set<ID>>) {
    && (forall sid | sid in sessions :: sessions[sid].user in byUser && sid in byUser[sessions[sid].user])
    && (forall u | u in byUser :: byUser[u] != {})
    && (forall u, sid | u in byUser && sid in byUser[u] :: sid in sessions && sessions[sid].user == u)
  }

  ghost predicate WithinCaps(sessions: map<ID, SessionState>, byUser: map<ID, set<ID>>) {
    && |sessions| <= MAX_SESSIONS
    && forall u | u in byUser :: |byUser[u]| <= MAX_SESSIONS_PER_USER
  }

  /** The last min(bufferSize, |log|) entries of a log. */
  ghost predicate IsTail(events: seq<StoredEvent>, log: seq<Event>, bufferSize: nat) {
    && |events| == (if |log| > bufferSize then bufferSize else |log|)
    && IsBlock(events, log, |log| - |events|)
  }

  /** A session holds the last min(bufferSize, sequence + 1) entries of its full log. */
  ghost predicate SessionOk(s: SessionState, past: History, bufferSize: nat) {
    && s.user == past.user && s.intents == past.intents
    && |past.log| >= 1
    && s.sequence == |past.log| - 1
    && IsTail(s.events, past.log, bufferSize)
    && (s.client.None? <==> s.disconnectedAt.Some?)
  }

  ghost predicate SessionsOk(sessions: map<ID, SessionState>, history: map<ID, History>, bufferSize: nat) {
    forall sid | sid in sessions :: sid in history && SessionOk(sessions[sid], history[sid], bufferSize)
  }

  /** The dispatches on a connection are one contiguous block of its session's log. */
  ghost predicate BlockOk(c: Conn, history: map<ID, History>) {
    match c.binding
    case None => c.sent == []
    case Some(b) => b.session in history && IsBlock(c.sent, history[b.session].log, b.start)
  }

  ghost predicate ConnsOk(conns: map<ID, Conn>, history: map<ID, History>, bufferSize: nat) {
    forall c | c in conns :: conns[c].Valid() && conns[c].capacity == bufferSize + 8 && BlockOk(conns[c], history)
  }

  /** The current connection of a session has been handed everything up to the end of the log. */
  ghost predicate UpToDate(c: Conn, sid: ID, past: History) {
    && c.binding.Some? && c.binding.value.session == sid
    && c.binding.value.start + |c.sent| == |past.log|
  }

  ghost predicate ClientsOk(sessions: map<ID, SessionState>, conns: map<ID, Conn>, history: map<ID, History>) {
    forall sid | sid in sessions && sessions[sid].client.Some? ::
      && sid in history && sessions[sid].client.value in conns
      && UpToDate(conns[sessions[sid].client.value], sid, history[sid])
  }

  ghost predicate Redacted(past: History) {
    !HasIntent(past.intents, INTENT_MESSAGE_CONTENT) ==>
      forall i | 0 <= i < |past.log| :: !RevealsContent(past.log[i])
  }

  ghost predicate AllRedacted(history: map<ID, History>) {
    forall sid | sid in history :: Redacted(history[sid])
  }

  ghost predicate Inv(h: HubState) {
    && h.bufferSize >= 1
    && Indexed(h.sessions, h.byUser)
    && WithinCaps(h.sessions, h.byUser)
    && SessionsOk(h.sessions, h.history, h.bufferSize)
    && ClientsOk(h.sessions, h.conns, h.history)
    && ConnsOk(h.conns, h.history, h.bufferSize)
    && AllRedacted(h.history)
  }

  // ---------- Removal ----------

  lemma SurvivorsIndexed(sessions: map<ID, SessionState>, byUser: map<ID, set<ID>>, dead: set<ID>)
    requires Indexed(sessions, byUser)
    ensures Indexed(sessions - dead, Survivors(byUser, dead))
  {
    var sessions', byUser' := sessions - dead, Survivors(byUser, dead);
    forall u | u in byUser'
      ensures byUser'[u] != {}
    {
      var sid :| sid in byUser[u] && sid !in dead;
      assert sid in byUser'[u];
    }
    forall sid | sid in sessions'
      ensures sessions'[sid].user in byUser' && sid in byUser'[sessions'[sid].user]
    {
      assert sid in byUser[sessions[sid].user] && sid !in dead;
    }
  }

  lemma SurvivorsWithinCaps(sessions: map<ID, SessionState>, byUser: map<ID, set<ID>>, dead: set<ID>)
    requires WithinCaps(sessions, byUser)
    ensures WithinCaps(sessions - dead, Survivors(byUser, dead))
  {
    SubsetSize((sessions - dead).Keys, sessions.Keys);
    var byUser' := Survivors(byUser, dead);
    forall u | u in byUser'
      ensures |byUser'[u]| <= MAX_SESSIONS_PER_USER
    {
      SubsetSize(byUser[u] - dead, byUser[u]);
    }
  }

  lemma RemoveAllInv(h: HubState, dead: set<ID>)
    requires Inv(h)
    ensures Inv(RemoveAll(h, dead))
  {
    hide SessionOk, UpToDate, ConnsOk, AllRedacted, LosingAll, Indexed, WithinCaps, Survivors;
    SurvivorsIndexed(h.sessions, h.byUser, dead);
    SurvivorsWithinCaps(h.sessions, h.byUser, dead);
  }

  /** The user index loses one more session. */
  lemma SurvivorsStep(byUser: map<ID, set<ID>>, dead: set<ID>, user: ID, sid: ID)
    requires user in byUser && sid in byUser[user] && sid !in dead
    requires forall u | u in byUser && u != user :: sid !in byUser[u]
    ensures user in Survivors(byUser, dead)
    ensures Unindexed(Survivors(byUser, dead), user, sid) == Survivors(byUser, dead + {sid})
    ensures Survivors(byUser, dead)[user] - {sid} == {} <==> byUser[user] <= dead + {sid}
    ensures LosingAll(byUser, dead + {sid})
         == LosingAll(byUser, dead) + (if byUser[user] <= dead + {sid} then {user} else {})
  {
    var before, after := Survivors(byUser, dead), Survivors(byUser, dead + {sid});
    assert before[user] - {sid} == byUser[user] - (dead + {sid});
    assert before[user] - {sid} == {} <==> byUser[user] <= dead + {sid} by {
      if before[user] - {sid} == {} {
        assert forall x | x in byUser[user] && x !in dead + {sid} :: x in before[user] - {sid};
      }
    }
    forall u | u in byUser && u != user
      ensures byUser[u] <= dead <==> byUser[u] <= dead + {sid}
      ensures byUser[u] - dead == byUser[u] - (dead + {sid})
    {
    }
    assert Unindexed(before, user, sid) == after;
  }

  /** Removing one session after the other is removing them all, whatever the order. */
  lemma RemoveAllStep(h: HubState, dead: set<ID>, sid: ID)
    requires Indexed(h.sessions, h.byUser)
    requires sid in h.sessions && sid !in dead
    ensures sid in RemoveAll(h, dead).sessions && h.sessions[sid].user in RemoveAll(h, dead).byUser
    ensures RemoveOne(RemoveAll(h, dead), sid) == RemoveAll(h, dead + {sid})
  {
    hide Survivors, LosingAll, Unindexed;
    var user := h.sessions[sid].user;
    SurvivorsStep(h.byUser, dead, user, sid);
    assert h.sessions - dead - {sid} == h.sessions - (dead + {sid});
    var losing := LosingAll(h.byUser, dead);
    UserStillThere(h.byUser, dead, user, sid);
    assert multiset(losing + {user}) == multiset(losing) + multiset{user};
  }

  lemma UserStillThere(byUser: map<ID, set<ID>>, dead: set<ID>, user: ID, sid: ID)
    requires user in byUser && sid in byUser[user] && sid !in dead
    ensures user !in LosingAll(byUser, dead)
  {
  }

  lemma RemoveNone(h: HubState)
    requires Indexed(h.sessions, h.byUser)
    ensures RemoveAll(h, {}) == h
  {
    assert forall u | u in h.byUser :: h.byUser[u] - {} == h.byUser[u];
    assert Survivors(h.byUser, {}) == h.byUser;
    assert LosingAll(h.byUser, {}) == {};
    assert h.sessions - {} == h.sessions;
  }

  // ---------- One dispatch ----------

  lemma AppendEventTail(events: seq<StoredEvent>, log: seq<Event>, event: Event, bufferSize: nat)
    requires bufferSize >= 1 && IsTail(events, log, bufferSize)
    ensures IsTail(AppendEvent(events, StoredEvent(|log|, event), bufferSize), log + [event], bufferSize)
  {
  }

  /** A block stays one when the log grows, and is extended by the log's next entry. */
  lemma BlockGrows(events: seq<StoredEvent>, log: seq<Event>, event: Event, start: nat)
    requires IsBlock(events, log, start)
    ensures IsBlock(events, log + [event], start)
    ensures start + |events| == |log| ==> IsBlock(events + [StoredEvent(|log|, event)], log + [event], start)
  {
  }

  /** What dispatchLocked does to one session and its connection. */
  lemma DeliverOk(s: SessionState, conn: Option<Conn>, past: History, sid: ID, event: Event, e: Schedule, bufferSize: nat)
    requires bufferSize >= 1 && SessionOk(s, past, bufferSize)
    requires conn.Some? <==> s.client.Some?
    requires conn.Some? ==> conn.value.Valid() && UpToDate(conn.value, sid, past)
                            && IsBlock(conn.value.sent, past.log, conn.value.binding.value.start)
    ensures var (s', c') := Deliver(s, conn, event, e, bufferSize);
            var past' := LogAppended(past, event);
            && s'.user == s.user && s.intents == past.intents
            && SessionOk(s', past', bufferSize)
            && (c'.Some? <==> conn.Some?)
            && (s'.client == s.client || s'.client == None)
            && (conn.Some? ==>
                  && c'.value.Valid() && c'.value.capacity == conn.value.capacity
                  && c'.value.binding == conn.value.binding
                  && IsBlock(c'.value.sent, past'.log, conn.value.binding.value.start)
                  && (s'.client.Some? ==> UpToDate(c'.value, sid, past')))
  {
    var stored := StoredEvent(|past.log|, event);
    AppendEventTail(s.events, past.log, event, bufferSize);
    hide IsTail, AppendEvent;
    if conn.Some? {
      OfferAnswers(conn.value, Dispatch(stored), e);
      BlockGrows(conn.value.sent, past.log, event, conn.value.binding.value.start);
    }
  }

  lemma RedactedGrows(past: History, event: Event)
    requires Redacted(past)
    requires !HasIntent(past.intents, INTENT_MESSAGE_CONTENT) ==> !RevealsContent(event)
    ensures Redacted(LogAppended(past, event))
  {
  }

  lemma BlockOkGrows(c: Conn, history: map<ID, History>, sid: ID, event: Event)
    requires BlockOk(c, history) && sid in history
    ensures BlockOk(c, history[sid := LogAppended(history[sid], event)])
  {
    if c.binding.Some? && c.binding.value.session == sid {
      BlockGrows(c.sent, history[sid].log, event, c.binding.value.start);
    }
  }

  /** Connections keep their blocks when one session's log grows and its connection is fed. */
  lemma ConnsOkGrows(
    conns: map<ID, Conn>, history: map<ID, History>, bufferSize: nat, sid: ID, event: Event, fed: Option<ID>, c': Conn)
    requires ConnsOk(conns, history, bufferSize) && sid in history
    requires fed.Some? ==>
      && c'.Valid() && c'.capacity == bufferSize + 8
      && BlockOk(c', history[sid := LogAppended(history[sid], event)])
    ensures ConnsOk(if fed.Some? then conns[fed.value := c'] else conns,
                    history[sid := LogAppended(history[sid], event)], bufferSize)
  {
    hide BlockOk, LogAppended, Conn.Valid;
    forall c | c in conns
      ensures BlockOk(conns[c], history[sid := LogAppended(history[sid], event)])
    {
      BlockOkGrows(conns[c], history, sid, event);
    }
  }

  /** A session other than the one dispatched to keeps its connection up to date. */
  lemma ClientsOkGrows(
    sessions: map<ID, SessionState>, conns: map<ID, Conn>, history: map<ID, History>,
    sid: ID, s': SessionState, c': Conn, past': History)
    requires ClientsOk(sessions, conns, history) && sid in sessions
    requires s'.client == sessions[sid].client || s'.client == None
    requires s'.client.Some? ==> UpToDate(c', sid, past')
    ensures ClientsOk(sessions[sid := s'],
                      if sessions[sid].client.Some? then conns[sessions[sid].client.value := c'] else conns,
                      history[sid := past'])
  {
  }

  lemma IndexedFrame(sessions: map<ID, SessionState>, byUser: map<ID, set<ID>>, sid: ID, s': SessionState)
    requires Indexed(sessions, byUser) && WithinCaps(sessions, byUser)
    requires sid in sessions && s'.user == sessions[sid].user
    ensures Indexed(sessions[sid := s'], byUser) && WithinCaps(sessions[sid := s'], byUser)
  {
    assert sessions[sid := s'].Keys == sessions.Keys;
  }

  lemma DispatchOneInv(h: HubState, sid: ID, event: Event, e: Schedule)
    requires Inv(h) && sid in h.sessions
    requires !HasIntent(h.sessions[sid].intents, INTENT_MESSAGE_CONTENT) ==> !RevealsContent(event)
    ensures sid in h.history && Inv(DispatchOne(h, sid, event, e))
  {
    hide SessionOk, IsBlock, Redacted, Deliver, LogAppended, Conn.Valid, RevealsContent, Indexed, WithinCaps;
    var s := h.sessions[sid];
    var conn := ConnOf(h.conns, s.client);
    DeliverOk(s, conn, h.history[sid], sid, event, e, h.bufferSize);
    RedactedGrows(h.history[sid], event);
    var (s', c) := Deliver(s, conn, event, e, h.bufferSize);
    var c' := if c.Some? then c.value else Conn(0, false, [], 0, [], None);
    ConnsOkGrows(h.conns, h.history, h.bufferSize, sid, event, s.client, c');
    ClientsOkGrows(h.sessions, h.conns, h.history, sid, s', c', LogAppended(h.history[sid], event));
    IndexedFrame(h.sessions, h.byUser, sid, s');
  }

  // ---------- Publishing ----------

  predicate OwedOk(h: HubState, owed: map<ID, Event>) {
    forall sid | sid in owed ::
      && sid in h.sessions
      && (!HasIntent(h.sessions[sid].intents, INTENT_MESSAGE_CONTENT) ==> !RevealsContent(owed[sid]))
  }

  lemma OwedIsOk(h: HubState, recipients: set<ID>, p: Publication)
    requires WellFormedPublication(p)
    ensures OwedOk(h, Owed(h, recipients, p))
  {
    forall sid | sid in Owed(h, recipients, p)
      ensures !HasIntent(h.sessions[sid].intents, INTENT_MESSAGE_CONTENT) ==> !RevealsContent(Owed(h, recipients, p)[sid])
    {
      if !HasIntent(h.sessions[sid].intents, INTENT_MESSAGE_CONTENT) {
        ContentNeedsItsIntent(p, h.sessions[sid].intents);
      }
    }
  }

  /** Dispatching to one more session of a publication. */
  lemma DispatchAllStep(h: HubState, owed: map<ID, Event>, sid: ID, event: Event, schedule: ID -> Schedule)
    requires ClientsOk(h.sessions, h.conns, h.history)
    requires sid in h.sessions && sid in h.history && sid !in owed
    ensures var h1 := DispatchAll(h, owed, schedule);
            && h1.sessions[sid] == h.sessions[sid]
            && DispatchOne(h1, sid, event, schedule(sid)) == DispatchAll(h, owed[sid := event], schedule)
  {
    hide LogAppended, Deliver;
    var h1, h2 := DispatchAll(h, owed, schedule), DispatchAll(h, owed[sid := event], schedule);
    var h1' := DispatchOne(h1, sid, event, schedule(sid));
    SameConnection(h, owed, sid, schedule);
    assert h1'.sessions == h2.sessions;
    assert h1'.history == h2.history;
    ConnsStep(h, owed, sid, event, schedule);
  }

  lemma FedOwn(h: HubState, owed: map<ID, Event>, sid: ID, event: Event, cid: ID, schedule: ID -> Schedule)
    requires ClientsOk(h.sessions, h.conns, h.history)
    requires sid in h.sessions && sid !in owed && h.sessions[sid].client == Some(cid)
    ensures cid in h.conns && Fed(h, owed, cid, schedule) == h.conns[cid]
    ensures Fed(h, owed[sid := event], cid, schedule)
         == Offer(h.conns[cid], Dispatch(StoredEvent(h.sessions[sid].sequence + 1, event)), schedule(sid)).0
  {
    hide Offer;
  }

  lemma FedOther(h: HubState, owed: map<ID, Event>, sid: ID, event: Event, cid: ID, schedule: ID -> Schedule)
    requires sid in h.sessions && h.sessions[sid].client != Some(cid) && cid in h.conns
    ensures Fed(h, owed[sid := event], cid, schedule) == Fed(h, owed, cid, schedule)
  {
    hide Offer;
  }

  /** Until its turn comes, a session's connection is untouched by the publication. */
  lemma SameConnection(h: HubState, owed: map<ID, Event>, sid: ID, schedule: ID -> Schedule)
    requires ClientsOk(h.sessions, h.conns, h.history)
    requires sid in h.sessions && sid !in owed
    ensures ConnOf(DispatchAll(h, owed, schedule).conns, h.sessions[sid].client) == ConnOf(h.conns, h.sessions[sid].client)
  {
    hide Fed, DeliverTo;
    if h.sessions[sid].client.Some? {
      FedOwn(h, owed, sid, Resumed, h.sessions[sid].client.value, schedule);
    }
  }

  lemma DispatchOneConns(h: HubState, sid: ID, event: Event, e: Schedule)
    requires sid in h.sessions && sid in h.history
    ensures var client := h.sessions[sid].client;
            DispatchOne(h, sid, event, e).conns ==
            if client.Some? && client.value in h.conns
            then h.conns[client.value :=
                   Offer(h.conns[client.value], Dispatch(StoredEvent(h.sessions[sid].sequence + 1, event)), e).0]
            else h.conns
  {
    hide Offer, LogAppended, AppendEvent, Detached;
  }

  lemma UnservedSession(h: HubState, owed: map<ID, Event>, sid: ID, schedule: ID -> Schedule)
    requires sid in h.sessions && sid in h.history && sid !in owed
    ensures var h1 := DispatchAll(h, owed, schedule);
            sid in h1.sessions && sid in h1.history && h1.sessions[sid] == h.sessions[sid]
  {
    hide Deliver, LogAppended, Fed;
  }

  lemma ConnsStep(h: HubState, owed: map<ID, Event>, sid: ID, event: Event, schedule: ID -> Schedule)
    requires ClientsOk(h.sessions, h.conns, h.history)
    requires sid in h.sessions && sid in h.history && sid !in owed
    ensures DispatchOne(DispatchAll(h, owed, schedule), sid, event, schedule(sid)).conns
         == DispatchAll(h, owed[sid := event], schedule).conns
  {
    hide DispatchOne, Offer, LogAppended, Fed, DeliverTo, ClientsOk;
    UnservedSession(h, owed, sid, schedule);
    DispatchOneConns(DispatchAll(h, owed, schedule), sid, event, schedule(sid));
    var client := h.sessions[sid].client;
    if client.Some? {
      FedOwn(h, owed, sid, event, client.value, schedule);
    }
    forall c | c in h.conns && client != Some(c)
      ensures Fed(h, owed[sid := event], c, schedule) == Fed(h, owed, c, schedule)
    {
      FedOther(h, owed, sid, event, c, schedule);
    }
  }

  lemma DispatchNone(h: HubState, schedule: ID -> Schedule)
    ensures DispatchAll(h, map[], schedule) == h
  {
    var h' := DispatchAll(h, map[], schedule);
    assert h'.sessions == h.sessions && h'.history == h.history && h'.conns == h.conns;
  }

  lemma {:induction false} DispatchAllInv(h: HubState, owed: map<ID, Event>, schedule: ID -> Schedule)
    requires Inv(h) && OwedOk(h, owed)
    ensures Inv(DispatchAll(h, owed, schedule))
    decreases |owed|
  {
    hide DispatchOne, DispatchAll, ConnsOk, WithinCaps, Indexed, RevealsContent;
    if owed == map[] {
      DispatchNone(h, schedule);
    } else {
      var sid :| sid in owed;
      var rest := owed - {sid};
      assert owed == rest[sid := owed[sid]];
      DispatchAllInv(h, rest, schedule);
      DispatchAllStep(h, rest, sid, owed[sid], schedule);
      DispatchedKeys(h, rest, schedule);
      DispatchOneInv(DispatchAll(h, rest, schedule), sid, owed[sid], schedule(sid));
    }
  }

  lemma DispatchedKeys(h: HubState, owed: map<ID, Event>, schedule: ID -> Schedule)
    ensures DispatchAll(h, owed, schedule).sessions.Keys == h.sessions.Keys
    ensures DispatchAll(h, owed, schedule).history.Keys == h.history.Keys
    ensures DispatchAll(h, owed, schedule).conns.Keys == h.conns.Keys
    ensures DispatchAll(h, owed, schedule).byUser == h.byUser
  {
  }

  // ---------- Identify ----------

  /** A connection that was not given to any session yet. */
  predicate Unbound(h: HubState, cid: ID) {
    cid in h.conns && h.conns[cid].binding.None?
  }

  lemma ReindexedOk(sessions: map<ID, SessionState>, byUser: map<ID, set<ID>>, sid: ID, s: SessionState)
    requires Indexed(sessions, byUser) && sid !in sessions
    ensures Indexed(sessions[sid := s], Reindexed(byUser, s.user, sid))
  {
  }

  lemma ReindexedCaps(sessions: map<ID, SessionState>, byUser: map<ID, set<ID>>, sid: ID, s: SessionState)
    requires WithinCaps(sessions, byUser) && sid !in sessions
    requires |sessions| < MAX_SESSIONS && (s.user in byUser ==> |byUser[s.user]| < MAX_SESSIONS_PER_USER)
    ensures WithinCaps(sessions[sid := s], Reindexed(byUser, s.user, sid))
  {
    var sessions', byUser' := sessions[sid := s], Reindexed(byUser, s.user, sid);
    assert sessions'.Keys == sessions.Keys + {sid};
    if s.user in byUser {
      SubsetSize(byUser[s.user] + {sid}, byUser[s.user] + {sid});
    }
  }

  /** READY is entry 0 of the log, the buffer and, if it was accepted, the connection. */
  lemma ReadyOk(c: Conn, sid: ID, user: ID, intents: Intents, cid: ID, e: Schedule, bufferSize: nat)
    requires bufferSize >= 1 && c.Valid() && c.sent == []
    ensures var first := StoredEvent(0, Ready(sid));
            var past := History(user, intents, [Ready(sid)]);
            var (c', ok) := Offer(c.(binding := Some(Binding(sid, 0))), Dispatch(first), e);
            var s := SessionState(user, intents, 0, AppendEvent([], first, bufferSize), Some(cid), None);
            && SessionOk(if ok then s else Detached(s, e.at), past, bufferSize)
            && c'.Valid() && c'.capacity == c.capacity && c'.binding == Some(Binding(sid, 0))
            && IsBlock(c'.sent, past.log, 0) && (ok ==> UpToDate(c', sid, past))
            && Redacted(past)
  {
    hide Dispatches;
    OfferAnswers(c.(binding := Some(Binding(sid, 0))), Dispatch(StoredEvent(0, Ready(sid))), e);
  }

  /** A connection given to a session takes its new place; the other sessions keep theirs. */
  lemma ClientsOkRebound(
    sessions: map<ID, SessionState>, conns: map<ID, Conn>, history: map<ID, History>,
    sid: ID, s': SessionState, cid: ID, c': Conn, past': History)
    requires ClientsOk(sessions, conns, history) && cid in conns && conns[cid].binding.None?
    requires s'.client == Some(cid) || s'.client == None
    requires s'.client.Some? ==> UpToDate(c', sid, past')
    ensures ClientsOk(sessions[sid := s'], conns[cid := c'], history[sid := past'])
  {
  }

  lemma ConnsOkRebound(
    conns: map<ID, Conn>, history: map<ID, History>, bufferSize: nat, sid: ID, cid: ID, c': Conn, past: History)
    requires ConnsOk(conns, history, bufferSize) && (sid in history ==> history[sid] == past)
    requires c'.Valid() && c'.capacity == bufferSize + 8 && BlockOk(c', history[sid := past])
    ensures ConnsOk(conns[cid := c'], history[sid := past], bufferSize)
  {
    hide Conn.Valid, IsBlock;
  }

  lemma OpenedInv(h: HubState, sid: ID, user: ID, intents: Intents, cid: ID, e: Schedule)
    requires Inv(h) && sid !in h.history && Unbound(h, cid) && !AtCapacity(h, user)
    ensures Inv(Opened(h, sid, user, intents, cid, e))
  {
    hide Conn.Valid, Indexed, WithinCaps, Reindexed, Redacted, IsBlock, SessionOk, UpToDate, ClientsOk, Offer;
    var h' := Opened(h, sid, user, intents, cid, e);
    ReadyOk(h.conns[cid], sid, user, intents, cid, e, h.bufferSize);
    ReindexedOk(h.sessions, h.byUser, sid, h'.sessions[sid]);
    ReindexedCaps(h.sessions, h.byUser, sid, h'.sessions[sid]);
    ClientsOkRebound(h.sessions, h.conns, h.history, sid, h'.sessions[sid], cid, h'.conns[cid], h'.history[sid]);
    ConnsOkRebound(h.conns, h.history, h.bufferSize, sid, cid, h'.conns[cid], h'.history[sid]);
  }

  // ---------- Resume ----------

  /** A block is extended by the buffered event that has the next sequence number. */
  lemma BlockExtends(sent: seq<StoredEvent>, events: seq<StoredEvent>, log: seq<Event>, start: nat, i: nat)
    requires i < |events| <= |log|
    requires IsBlock(events, log, |log| - |events|) && IsBlock(sent, log, start)
    requires start + |sent| == |log| - |events| + i
    ensures IsBlock(sent + [events[i]], log, start)
  {
  }

  lemma SequenceAt(events: seq<StoredEvent>, log: seq<Event>, i: nat)
    requires i < |events| <= |log| && IsBlock(events, log, |log| - |events|)
    ensures events[i].sequence == |log| - |events| + i
  {
  }

  /**
    The replay offers the buffered events after `after`, in order and up to the first
    refusal: what the connection has been sent stays a block, up to the end on success.
  */
  lemma {:induction false} ReplayBlocks(
    c: Conn, events: seq<StoredEvent>, log: seq<Event>, start: nat, after: int, i: nat, schedule: nat -> Schedule)
    requires c.Valid() && i <= |events| <= |log|
    requires IsBlock(events, log, |log| - |events|) && IsBlock(c.sent, log, start)
    requires start + |c.sent| == (if |log| - |events| + i > after then |log| - |events| + i else after + 1)
    ensures var r := Replay(c, events, after, i, schedule);
            && r.0.Valid() && r.0.capacity == c.capacity && r.0.binding == c.binding
            && IsBlock(r.0.sent, log, start)
            && (r.1 && after < |log| ==> start + |r.0.sent| == |log|)
    decreases |events| - i
  {
    hide Conn.Valid, IsBlock;
    if i < |events| {
      SequenceAt(events, log, i);
      if events[i].sequence > after {
        OfferAnswers(c, Dispatch(events[i]), schedule(i));
        var (c', ok) := Offer(c, Dispatch(events[i]), schedule(i));
        if ok {
          BlockExtends(c.sent, events, log, start, i);
          ReplayBlocks(c', events, log, start, after, i + 1, schedule);
        }
      } else {
        ReplayBlocks(c, events, log, start, after, i + 1, schedule);
      }
    }
  }

  /** The checks of resume leave no gap between what the client has and what is buffered. */
  lemma ResumableMeansBuffered(s: SessionState, past: History, bufferSize: nat, after: int)
    requires bufferSize >= 1 && SessionOk(s, past, bufferSize)
    ensures |s.events| >= 1 && s.events[0].sequence == |past.log| - |s.events|
  {
  }

  /** What resume does to the session and its new connection up to the RESUMED event. */
  lemma ReplayOk(s: SessionState, c: Conn, past: History, sid: ID, after: nat, cid: ID, schedule: nat -> Schedule, bufferSize: nat)
    requires bufferSize >= 1 && SessionOk(s, past, bufferSize)
    requires after <= s.sequence && !(|s.events| > 0 && after < s.events[0].sequence - 1)
    requires c.Valid() && c.sent == []
    ensures var (c', ok, at) := Replay(c.(binding := Some(Binding(sid, after + 1))), s.events, after, 0, schedule);
            var s1 := s.(client := Some(cid), disconnectedAt := None);
            && SessionOk(if ok then s1 else Detached(s1, at), past, bufferSize)
            && c'.Valid() && c'.capacity == c.capacity && c'.binding == Some(Binding(sid, after + 1))
            && IsBlock(c'.sent, past.log, after + 1) && (ok ==> UpToDate(c', sid, past))
  {
    hide Replay, Dispatches;
    ResumableMeansBuffered(s, past, bufferSize, after);
    ReplayBlocks(c.(binding := Some(Binding(sid, after + 1))), s.events, past.log, after + 1, after, 0, schedule);
  }

  lemma SupersededOk(
    sessions: map<ID, SessionState>, conns: map<ID, Conn>, history: map<ID, History>, bufferSize: nat,
    previous: Option<ID>, cid: ID)
    requires ClientsOk(sessions, conns, history) && ConnsOk(conns, history, bufferSize) && cid in conns
    ensures ClientsOk(sessions, Superseded(conns, previous, cid), history)
    ensures ConnsOk(Superseded(conns, previous, cid), history, bufferSize)
    ensures cid in Superseded(conns, previous, cid) && Superseded(conns, previous, cid)[cid] == conns[cid]
  {
    hide Dispatches, IsBlock;
  }

  lemma ReplayedInv(h: HubState, sid: ID, after: nat, cid: ID, schedule: nat -> Schedule)
    requires Inv(h) && Unbound(h, cid) && sid in h.sessions && Resumable(h, h.sessions[sid].user, sid, after)
    ensures Inv(Replayed(h, sid, after, cid, schedule).0)
    ensures Replayed(h, sid, after, cid, schedule).0.sessions.Keys == h.sessions.Keys
  {
    hide Indexed, WithinCaps, Redacted, IsBlock, Replay, Conn.Valid, UpToDate, ClientsOk, SessionOk, Superseded;
    var h' := Replayed(h, sid, after, cid, schedule).0;
    var conns := Superseded(h.conns, h.sessions[sid].client, cid);
    SupersededOk(h.sessions, h.conns, h.history, h.bufferSize, h.sessions[sid].client, cid);
    ReplayOk(h.sessions[sid], h.conns[cid], h.history[sid], sid, after, cid, schedule, h.bufferSize);
    IndexedFrame(h.sessions, h.byUser, sid, h'.sessions[sid]);
    ClientsOkRebound(h.sessions, conns, h.history, sid, h'.sessions[sid], cid, h'.conns[cid], h.history[sid]);
    ConnsOkRebound(conns, h.history, h.bufferSize, sid, cid, h'.conns[cid], h.history[sid]);
    assert h.history[sid := h.history[sid]] == h.history;
  }

  lemma ResumptionInv(h: HubState, sid: ID, after: nat, cid: ID, schedule: nat -> Schedule)
    requires Inv(h) && Unbound(h, cid) && sid in h.sessions && Resumable(h, h.sessions[sid].user, sid, after)
    ensures sid in h.history && Inv(Resumption(h, sid, after, cid, schedule).0)
  {
    hide Replayed, Indexed, WithinCaps, ConnsOk, AllRedacted, SessionOk, DispatchOne;
    ReplayedInv(h, sid, after, cid, schedule);
    var (h1, ok) := Replayed(h, sid, after, cid, schedule);
    if ok {
      DispatchOneInv(h1, sid, Resumed, schedule(|h.sessions[sid].events|));
    }
  }

  lemma DetachInv(h: HubState, sid: ID, cid: ID, now: Time)
    requires Inv(h)
    ensures Inv(Detach(h, sid, cid, now))
  {
    hide Dispatches, Indexed, WithinCaps, ConnsOk, IsTail;
    if sid in h.sessions {
      IndexedFrame(h.sessions, h.byUser, sid, Detached(h.sessions[sid], now));
    }
  }
}
