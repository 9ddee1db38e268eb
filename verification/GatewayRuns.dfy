/**
  Whole runs of the gateway: any interleaving of connections, identify, resume, detach,
  publications, sweeps, heartbeats and write loops. The theorems say what every client is
  delivered, however often it disconnects and resumes.
*/
module GatewayRuns {
  import opened Common
  import opened GatewayProtocol
  import opened GatewayClient
  import opened GatewayHubSpec

  /** One critical section of the hub, or one action of a connection's own goroutines. */
  datatype Op =
    | Connect(cid: ID, e: Schedule)
    | DoIdentify(sid: ID, user: ID, intents: Intents, cid: ID, now: Time, e: Schedule)
    | DoResume(user: ID, sid: ID, after: int, cid: ID, now: Time, schedule: nat -> Schedule)
    | DoDetach(sid: ID, cid: ID, now: Time)
    | DoPublish(recipients: set<ID>, publication: Publication, now: Time, schedules: ID -> Schedule)
    | Sweep(now: Time)
    | AckHeartbeat(cid: ID, e: Schedule)
    | WriteOrTerminate(cid: ID, e: Schedule)

  function Init(bufferSize: nat, retention: Time): HubState {
    HubState(bufferSize, retention, map[], map[], map[], map[], multiset{})
  }

  /** Identifiers are fresh, and ServeHTTP identifies or resumes at most once a connection. */
  predicate Enabled(h: HubState, op: Op) {
    match op
    case Connect(cid, e) => cid !in h.conns
    case DoIdentify(sid, user, intents, cid, now, e) => sid !in h.history && Unbound(h, cid)
    case DoResume(user, sid, after, cid, now, schedule) => Unbound(h, cid) && h.sessions.Keys <= h.history.Keys
    case DoPublish(recipients, publication, now, schedules) => WellFormedPublication(publication)
    case AckHeartbeat(cid, e) => cid in h.conns
    case WriteOrTerminate(cid, e) => cid in h.conns
    case _ => true
  }

  function Apply(h: HubState, op: Op): HubState
    requires Enabled(h, op)
  {
    match op
    case Connect(cid, e) =>
      h.(conns := h.conns[cid := Offer(Conn(h.bufferSize + 8, false, [], 0, [], None), Hello, e).0])
    case DoIdentify(sid, user, intents, cid, now, e) => Identify(h, sid, user, intents, cid, now, e).0
    case DoResume(user, sid, after, cid, now, schedule) => Resume(h, user, sid, after, cid, now, schedule).0
    case DoDetach(sid, cid, now) => Detach(h, sid, cid, now)
    case DoPublish(recipients, publication, now, schedules) => Publish(h, recipients, publication, now, schedules)
    case Sweep(now) => Prune(h, now)
    case AckHeartbeat(cid, e) => h.(conns := h.conns[cid := Offer(h.conns[cid], HeartbeatAck, e).0])
    case WriteOrTerminate(cid, e) => h.(conns := h.conns[cid := Interrupted(h.conns[cid], e)])
  }

  /** The operations can happen one after the other, starting from h. */
  predicate Possible(h: HubState, ops: seq<Op>)
    decreases |ops|
  {
    ops == [] || (Enabled(h, ops[0]) && Possible(Apply(h, ops[0]), ops[1..]))
  }

  function Run(h: HubState, ops: seq<Op>): HubState
    requires Possible(h, ops)
    decreases |ops|
  {
    if ops == [] then h else Run(Apply(h, ops[0]), ops[1..])
  }

  // ---------- The invariant ----------

  lemma InitInv(bufferSize: nat, retention: Time)
    requires bufferSize >= 1
    ensures Inv(Init(bufferSize, retention))
  {
  }

  /** A connection's own traffic, which carries no dispatch, changes nothing the hub relies on. */
  lemma TrafficInv(h: HubState, cid: ID, c': Conn)
    requires Inv(h) && c'.Valid() && c'.capacity == h.bufferSize + 8
    requires if cid in h.conns then c'.sent == h.conns[cid].sent && c'.binding == h.conns[cid].binding
             else c'.sent == [] && c'.binding == None
    ensures Inv(h.(conns := h.conns[cid := c']))
  {
    hide Indexed, WithinCaps, SessionOk, Redacted, IsBlock, Conn.Valid;
  }

  lemma ApplyInv(h: HubState, op: Op)
    requires Inv(h) && Enabled(h, op)
    ensures Inv(Apply(h, op))
  {
    hide Inv, Opened, Resumption, RemoveAll, DispatchAll, Owed, Detach, Offer, Interrupted, Dispatches;
    match op
    case Connect(cid, e) =>
      NoDispatchesYet();
      OfferAnswers(Conn(h.bufferSize + 8, false, [], 0, [], None), Hello, e);
      TrafficInv(h, cid, Offer(Conn(h.bufferSize + 8, false, [], 0, [], None), Hello, e).0);
    case DoIdentify(sid, user, intents, cid, now, e) =>
      RemoveAllInv(h, ExpiredSessions(h, now));
      PruneFrame(h, now);
      if !AtCapacity(Prune(h, now), user) {
        OpenedInv(Prune(h, now), sid, user, intents, cid, e);
      }
    case DoResume(user, sid, after, cid, now, schedule) =>
      RemoveAllInv(h, ExpiredSessions(h, now));
      PruneFrame(h, now);
      if Resumable(Prune(h, now), user, sid, after) {
        ResumptionInv(Prune(h, now), sid, after, cid, schedule);
      }
    case DoDetach(sid, cid, now) =>
      DetachInv(h, sid, cid, now);
    case DoPublish(recipients, publication, now, schedules) =>
      RemoveAllInv(h, ExpiredSessions(h, now));
      OwedIsOk(Prune(h, now), recipients, publication);
      DispatchAllInv(Prune(h, now), Owed(Prune(h, now), recipients, publication), schedules);
    case Sweep(now) =>
      RemoveAllInv(h, ExpiredSessions(h, now));
    case AckHeartbeat(cid, e) =>
      ConnFacts(h, cid);
      OfferAnswers(h.conns[cid], HeartbeatAck, e);
      TrafficInv(h, cid, Offer(h.conns[cid], HeartbeatAck, e).0);
    case WriteOrTerminate(cid, e) =>
      ConnFacts(h, cid);
      InterruptedOk(h.conns[cid], e);
      TrafficInv(h, cid, Interrupted(h.conns[cid], e));
  }

  lemma NoDispatchesYet()
    ensures Dispatches([]) == []
  {
  }

  lemma InterruptedOk(c: Conn, e: Schedule)
    requires c.Valid()
    ensures Interrupted(c, e).Valid()
    ensures Interrupted(c, e) == c.(taken := Interrupted(c, e).taken, done := Interrupted(c, e).done)
  {
  }

  lemma ConnFacts(h: HubState, cid: ID)
    requires Inv(h) && cid in h.conns
    ensures h.conns[cid].Valid() && h.conns[cid].capacity == h.bufferSize + 8 && BlockOk(h.conns[cid], h.history)
  {
  }

  lemma PruneFrame(h: HubState, now: Time)
    ensures Prune(h, now).conns == h.conns && Prune(h, now).history == h.history
    ensures Prune(h, now).bufferSize == h.bufferSize && Prune(h, now).retention == h.retention
    ensures forall sid | sid in Prune(h, now).sessions :: sid in h.sessions && Prune(h, now).sessions[sid] == h.sessions[sid]
  {
  }

  lemma {:induction false} RunInv(h: HubState, ops: seq<Op>)
    requires Inv(h) && Possible(h, ops)
    ensures Inv(Run(h, ops))
    decreases |ops|
  {
    hide Inv, Apply, Enabled;
    if ops != [] {
      ApplyInv(h, ops[0]);
      RunInv(Apply(h, ops[0]), ops[1..]);
    }
  }

  // ---------- What no run ever takes back ----------

  ghost predicate ConnGrows(c: Conn, c': Conn) {
    && c.placed <= c'.placed && c.sent <= c'.sent && c.taken <= c'.taken
    && (c.done ==> c'.done)
    && (c.binding.Some? ==> c'.binding == c.binding)
  }

  ghost predicate ConnsGrow(conns: map<ID, Conn>, conns': map<ID, Conn>) {
    forall c | c in conns :: c in conns' && ConnGrows(conns[c], conns'[c])
  }

  ghost predicate HistoryGrows(past: map<ID, History>, past': map<ID, History>) {
    forall sid | sid in past ::
      && sid in past'
      && past'[sid].user == past[sid].user && past'[sid].intents == past[sid].intents
      && past[sid].log <= past'[sid].log
  }

  /** The connection was given to a session that has since lost it or is gone. */
  predicate Stale(h: HubState, cid: ID) {
    cid in h.conns && h.conns[cid].binding.Some? && !Serves(h.sessions, h.conns[cid], cid)
  }

  /** A stale connection stays stale and is never sent another dispatch. */
  ghost predicate StaleFrozen(h: HubState, h': HubState) {
    forall c | Stale(h, c) :: Stale(h', c) && h'.conns[c].sent == h.conns[c].sent
  }

  ghost predicate Continues(h: HubState, h': HubState) {
    ConnsGrow(h.conns, h'.conns) && HistoryGrows(h.history, h'.history) && StaleFrozen(h, h')
  }

  lemma ContinuesTransitive(a: HubState, b: HubState, c: HubState)
    requires Continues(a, b) && Continues(b, c)
    ensures Continues(a, c)
  {
    hide Serves;
    forall k | k in a.conns
      ensures k in c.conns && ConnGrows(a.conns[k], c.conns[k])
    {
      assert ConnGrows(a.conns[k], b.conns[k]) && ConnGrows(b.conns[k], c.conns[k]);
    }
    forall k | Stale(a, k)
      ensures Stale(c, k) && c.conns[k].sent == a.conns[k].sent
    {
      assert Stale(b, k) && b.conns[k].sent == a.conns[k].sent;
    }
  }

  lemma OfferGrows(c: Conn, f: Frame, e: Schedule)
    requires c.Valid()
    ensures ConnGrows(c, Offer(c, f, e).0) && Offer(c, f, e).0.Valid()
    ensures Offer(c, f, e).0.binding == c.binding
  {
    hide Dispatches;
    OfferAnswers(c, f, e);
  }

  lemma {:induction false} ReplayGrows(c: Conn, events: seq<StoredEvent>, after: int, i: nat, schedule: nat -> Schedule)
    requires c.Valid() && i <= |events|
    ensures ConnGrows(c, Replay(c, events, after, i, schedule).0)
    decreases |events| - i
  {
    hide Conn.Valid, Offer;
    if i < |events| {
      if events[i].sequence > after {
        OfferGrows(c, Dispatch(events[i]), schedule(i));
        if Offer(c, Dispatch(events[i]), schedule(i)).1 {
          ReplayGrows(Offer(c, Dispatch(events[i]), schedule(i)).0, events, after, i + 1, schedule);
        }
      } else {
        ReplayGrows(c, events, after, i + 1, schedule);
      }
    }
  }

  /** One connection and one session change; the connection is nobody else's. */
  lemma ConnUpdated(h: HubState, h': HubState, cid: ID)
    requires cid in h.conns && !Stale(h, cid)
    requires h'.conns.Keys == h.conns.Keys && ConnGrows(h.conns[cid], h'.conns[cid])
    requires forall c | c in h.conns && c != cid ::
               ConnGrows(h.conns[c], h'.conns[c]) && h'.conns[c].sent == h.conns[c].sent
    requires HistoryGrows(h.history, h'.history)
    requires forall sid | sid in h'.sessions ::
               h'.sessions[sid].client in {None, Some(cid)}
               || (sid in h.sessions && h.sessions[sid].client == h'.sessions[sid].client)
    ensures Continues(h, h')
  {
  }

  lemma DeliverGrows(s: SessionState, c: Conn, event: Event, e: Schedule, bufferSize: nat)
    requires c.Valid()
    ensures var (s', c') := Deliver(s, Some(c), event, e, bufferSize);
            c'.Some? && ConnGrows(c, c'.value) && (s'.client == s.client || s'.client == None)
  {
    hide Offer, Conn.Valid;
    OfferGrows(c, Dispatch(StoredEvent(s.sequence + 1, event)), e);
  }

  lemma ServingIsNotStale(h: HubState, sid: ID)
    requires Inv(h) && sid in h.sessions && h.sessions[sid].client.Some?
    ensures h.sessions[sid].client.value in h.conns && !Stale(h, h.sessions[sid].client.value)
    ensures h.conns[h.sessions[sid].client.value].Valid()
  {
    hide Conn.Valid, Indexed, WithinCaps, SessionOk, Redacted, BlockOk;
  }

  /** A session without a connection only logs. */
  lemma LoggedContinues(h: HubState, h': HubState)
    requires h'.conns == h.conns && HistoryGrows(h.history, h'.history) && h'.sessions.Keys == h.sessions.Keys
    requires forall sid | sid in h.sessions :: h'.sessions[sid].client == h.sessions[sid].client
    ensures Continues(h, h')
  {
  }

  lemma DispatchOneContinues(h: HubState, sid: ID, event: Event, e: Schedule)
    requires Inv(h) && sid in h.sessions
    ensures sid in h.history && Continues(h, DispatchOne(h, sid, event, e))
  {
    hide Conn.Valid, Indexed, WithinCaps, SessionOk, AllRedacted, ConnsOk, ClientsOk, Stale, Offer, AppendEvent;
    var client := h.sessions[sid].client;
    var h' := DispatchOne(h, sid, event, e);
    if client.Some? {
      hide Deliver;
      ServingIsNotStale(h, sid);
      DeliverGrows(h.sessions[sid], h.conns[client.value], event, e, h.bufferSize);
      ConnUpdated(h, h', client.value);
    } else {
      LoggedContinues(h, h');
    }
  }

  lemma {:induction false} DispatchAllContinues(h: HubState, owed: map<ID, Event>, schedule: ID -> Schedule)
    requires Inv(h) && OwedOk(h, owed)
    ensures Continues(h, DispatchAll(h, owed, schedule))
    decreases |owed|
  {
    hide DispatchOne, DispatchAll, Continues, ConnsOk, WithinCaps, Indexed, RevealsContent;
    if owed == map[] {
      DispatchNone(h, schedule);
      ContinuesReflexive(h);
    } else {
      var sid :| sid in owed;
      var rest := owed - {sid};
      assert owed == rest[sid := owed[sid]];
      DispatchAllContinues(h, rest, schedule);
      DispatchAllInv(h, rest, schedule);
      DispatchAllStep(h, rest, sid, owed[sid], schedule);
      DispatchedKeys(h, rest, schedule);
      DispatchOneContinues(DispatchAll(h, rest, schedule), sid, owed[sid], schedule(sid));
      ContinuesTransitive(h, DispatchAll(h, rest, schedule), DispatchAll(h, owed, schedule));
    }
  }

  lemma ContinuesReflexive(h: HubState)
    ensures Continues(h, h)
  {
  }

  lemma PruneContinues(h: HubState, now: Time)
    ensures Continues(h, Prune(h, now))
  {
    PruneFrame(h, now);
  }

  lemma OpenedContinues(h: HubState, sid: ID, user: ID, intents: Intents, cid: ID, e: Schedule)
    requires Inv(h) && sid !in h.history && Unbound(h, cid)
    ensures Continues(h, Opened(h, sid, user, intents, cid, e))
    ensures Opened(h, sid, user, intents, cid, e).conns[cid].binding == Some(Binding(sid, 0))
  {
    hide Conn.Valid, Offer, Indexed, WithinCaps, SessionOk, Redacted, BlockOk;
    var bound := h.conns[cid].(binding := Some(Binding(sid, 0)));
    BindingKeepsValid(h.conns[cid], Binding(sid, 0));
    OfferGrows(bound, Dispatch(StoredEvent(0, Ready(sid))), e);
    ConnUpdated(h, Opened(h, sid, user, intents, cid, e), cid);
  }

  lemma BindingKeepsValid(c: Conn, b: Binding)
    requires c.Valid()
    ensures c.(binding := Some(b)).Valid()
  {
  }

  lemma ResumptionContinues(h: HubState, sid: ID, after: nat, cid: ID, schedule: nat -> Schedule)
    requires Inv(h) && Unbound(h, cid) && sid in h.sessions && Resumable(h, h.sessions[sid].user, sid, after)
    ensures sid in h.history && Continues(h, Resumption(h, sid, after, cid, schedule).0)
    ensures Resumption(h, sid, after, cid, schedule).0.conns[cid].binding == Some(Binding(sid, after + 1))
  {
    hide Replayed, Indexed, WithinCaps, ConnsOk, AllRedacted, SessionOk, DispatchOne, Continues;
    ReplayedContinues(h, sid, after, cid, schedule);
    ReplayedInv(h, sid, after, cid, schedule);
    var (h1, ok) := Replayed(h, sid, after, cid, schedule);
    if ok {
      var h2 := DispatchOne(h1, sid, Resumed, schedule(|h.sessions[sid].events|));
      DispatchOneContinues(h1, sid, Resumed, schedule(|h.sessions[sid].events|));
      ContinuesTransitive(h, h1, h2);
      BindingSticks(h1, h2, cid);
    }
  }

  lemma BindingSticks(h: HubState, h': HubState, cid: ID)
    requires Continues(h, h') && cid in h.conns && h.conns[cid].binding.Some?
    ensures cid in h'.conns && h'.conns[cid].binding == h.conns[cid].binding
  {
  }

  lemma ReplayedContinues(h: HubState, sid: ID, after: nat, cid: ID, schedule: nat -> Schedule)
    requires Inv(h) && Unbound(h, cid) && sid in h.sessions
    ensures Continues(h, Replayed(h, sid, after, cid, schedule).0)
    ensures cid in Replayed(h, sid, after, cid, schedule).0.conns
    ensures Replayed(h, sid, after, cid, schedule).0.conns[cid].binding == Some(Binding(sid, after + 1))
  {
    hide Conn.Valid, Replay, Indexed, WithinCaps, SessionOk, Redacted, BlockOk, ClientsOk;
    var conns := Superseded(h.conns, h.sessions[sid].client, cid);
    var bound := conns[cid].(binding := Some(Binding(sid, after + 1)));
    BindingKeepsValid(h.conns[cid], Binding(sid, after + 1));
    ReplayGrows(bound, h.sessions[sid].events, after, 0, schedule);
    ConnUpdated(h, Replayed(h, sid, after, cid, schedule).0, cid);
  }

  lemma ApplyContinues(h: HubState, op: Op)
    requires Inv(h) && Enabled(h, op)
    ensures Continues(h, Apply(h, op))
  {
    hide Inv, Opened, Resumption, RemoveAll, DispatchAll, Owed, Continues, Offer, Interrupted, Dispatches;
    match op
    case Connect(cid, e) =>
      TrafficContinues(h, cid, Apply(h, op).conns[cid]);
    case DoIdentify(sid, user, intents, cid, now, e) =>
      RemoveAllInv(h, ExpiredSessions(h, now));
      PruneFrame(h, now);
      PruneContinues(h, now);
      if !AtCapacity(Prune(h, now), user) {
        OpenedContinues(Prune(h, now), sid, user, intents, cid, e);
        ContinuesTransitive(h, Prune(h, now), Apply(h, op));
      }
    case DoResume(user, sid, after, cid, now, schedule) =>
      RemoveAllInv(h, ExpiredSessions(h, now));
      PruneFrame(h, now);
      PruneContinues(h, now);
      if Resumable(Prune(h, now), user, sid, after) {
        ResumptionContinues(Prune(h, now), sid, after, cid, schedule);
        ContinuesTransitive(h, Prune(h, now), Apply(h, op));
      }
    case DoDetach(sid, cid, now) =>
      DetachContinues(h, sid, cid, now);
    case DoPublish(recipients, publication, now, schedules) =>
      var h1 := Prune(h, now);
      RemoveAllInv(h, ExpiredSessions(h, now));
      PruneContinues(h, now);
      OwedIsOk(h1, recipients, publication);
      DispatchAllContinues(h1, Owed(h1, recipients, publication), schedules);
      ContinuesTransitive(h, h1, Apply(h, op));
    case Sweep(now) =>
      PruneContinues(h, now);
    case AckHeartbeat(cid, e) =>
      ConnFacts(h, cid);
      OfferGrows(h.conns[cid], HeartbeatAck, e);
      OfferAnswers(h.conns[cid], HeartbeatAck, e);
      TrafficContinues(h, cid, Apply(h, op).conns[cid]);
    case WriteOrTerminate(cid, e) =>
      ConnFacts(h, cid);
      InterruptedGrows(h.conns[cid], e);
      TrafficContinues(h, cid, Interrupted(h.conns[cid], e));
  }

  lemma InterruptedGrows(c: Conn, e: Schedule)
    requires c.Valid()
    ensures ConnGrows(c, Interrupted(c, e)) && Interrupted(c, e).sent == c.sent && Interrupted(c, e).binding == c.binding
  {
  }

  lemma DetachContinues(h: HubState, sid: ID, cid: ID, now: Time)
    ensures Continues(h, Detach(h, sid, cid, now))
  {
  }

  lemma TrafficContinues(h: HubState, cid: ID, c': Conn)
    requires cid in h.conns ==> ConnGrows(h.conns[cid], c') && c'.sent == h.conns[cid].sent && c'.binding == h.conns[cid].binding
    ensures Continues(h, h.(conns := h.conns[cid := c']))
  {
  }

  /** Over any run: logs and connections only grow, and a stale connection gets nothing more. */
  lemma {:induction false} RunContinues(h: HubState, ops: seq<Op>)
    requires Inv(h) && Possible(h, ops)
    ensures Inv(Run(h, ops)) && Continues(h, Run(h, ops))
    decreases |ops|
  {
    hide Inv, Apply, Enabled, Continues;
    if ops == [] {
      ContinuesReflexive(h);
    } else {
      ApplyInv(h, ops[0]);
      ApplyContinues(h, ops[0]);
      RunContinues(Apply(h, ops[0]), ops[1..]);
      ContinuesTransitive(h, Apply(h, ops[0]), Run(h, ops));
    }
  }
}
