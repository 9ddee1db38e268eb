/** How long the gateway keeps a session that has lost its connection. */
module GatewayRetention {
  import opened Common
  import opened GatewayProtocol
  import opened GatewayClient
  import opened GatewayHubSpec
  import opened GatewayRuns
  import opened GatewayTheorems

  /** The sessions an operation finds after its pruning, if it prunes. */
  function Found(h: HubState, op: Op): HubState {
    match op
    case DoIdentify(_, _, _, _, now, _) => Prune(h, now)
    case DoResume(_, _, _, _, now, _) => Prune(h, now)
    case DoPublish(_, _, now, _) => Prune(h, now)
    case Sweep(now) => Prune(h, now)
    case _ => h
  }

  /** Sessions are removed by pruning and by nothing else. */
  lemma OnlyPruningRemoves(h: HubState, op: Op, sid: ID)
    requires Inv(h) && Enabled(h, op) && sid in Found(h, op).sessions
    ensures sid in Apply(h, op).sessions
  {
    hide Inv, RemoveAll, Offer, Replay, Owed, AppendEvent, DeliverTo;
  }

  /** All clock readings of an operation are from the time start on and before the time end. */
  ghost predicate Between(op: Op, start: Time, end: Time) {
    match op
    case DoIdentify(_, _, _, _, now, e) => start <= now < end && start <= e.at < end
    case DoResume(_, _, _, _, now, schedule) => start <= now < end && forall i :: start <= schedule(i).at < end
    case DoDetach(_, _, now) => start <= now < end
    case DoPublish(_, _, now, schedules) => start <= now < end && forall sid :: start <= schedules(sid).at < end
    case Sweep(now) => start <= now < end
    case _ => true
  }

  /** The session is there, and connected or detached no earlier than start. */
  predicate KeptSince(h: HubState, sid: ID, start: Time) {
    sid in h.sessions &&
    var s := h.sessions[sid];
    s.client.Some? || (s.disconnectedAt.Some? && s.disconnectedAt.value >= start)
  }

  lemma PruneKeeps(h: HubState, sid: ID, start: Time, now: Time)
    requires Inv(h) && KeptSince(h, sid, start) && now - start < h.retention
    ensures KeptSince(Prune(h, now), sid, start)
  {
    ClientOrTime(h, sid);
    hide Inv;
  }

  lemma {:induction false} ReplayAt(c: Conn, events: seq<StoredEvent>, after: int, i: nat, schedule: nat -> Schedule, start: Time)
    requires i <= |events| && forall k :: start <= schedule(k).at
    ensures !Replay(c, events, after, i, schedule).1 ==> Replay(c, events, after, i, schedule).2 >= start
    decreases |events| - i
  {
    hide Offer;
    if i < |events| {
      if events[i].sequence > after {
        ReplayAt(Offer(c, Dispatch(events[i]), schedule(i)).0, events, after, i + 1, schedule, start);
      } else {
        ReplayAt(c, events, after, i + 1, schedule, start);
      }
    }
  }

  lemma ResumptionKeeps(h: HubState, other: ID, after: nat, cid: ID, schedule: nat -> Schedule, sid: ID, start: Time)
    requires other in h.sessions && other in h.history && cid in h.conns
    requires KeptSince(h, sid, start) && forall k :: start <= schedule(k).at
    ensures KeptSince(Resumption(h, other, after, cid, schedule).0, sid, start)
  {
    hide Offer, Replay, AppendEvent, LogAppended;
    var conns := Superseded(h.conns, h.sessions[other].client, cid);
    ReplayAt(conns[cid].(binding := Some(Binding(other, after + 1))), h.sessions[other].events, after, 0, schedule, start);
  }

  lemma PublishKeeps(h: HubState, owed: map<ID, Event>, schedule: ID -> Schedule, sid: ID, start: Time)
    requires KeptSince(h, sid, start) && forall k :: start <= schedule(k).at
    ensures KeptSince(DispatchAll(h, owed, schedule), sid, start)
  {
    hide Offer, AppendEvent, LogAppended, Fed;
  }

  lemma StepKeeps(h: HubState, op: Op, sid: ID, start: Time, end: Time)
    requires Inv(h) && Enabled(h, op) && KeptSince(h, sid, start)
    requires Between(op, start, end) && end - start <= h.retention
    ensures KeptSince(Apply(h, op), sid, start) && Apply(h, op).retention == h.retention
  {
    hide Inv, RemoveAll, Resumption, DispatchAll, Owed, Offer, AppendEvent, KeptSince;
    match op
    case DoIdentify(other, user, intents, cid, now, e) =>
      PruneKeeps(h, sid, start, now);
      PruneFrame(h, now);
      OpenedKeeps(Prune(h, now), other, user, intents, cid, e, sid, start);
    case DoResume(user, other, after, cid, now, schedule) =>
      PruneKeeps(h, sid, start, now);
      PruneFrame(h, now);
      if Resumable(Prune(h, now), user, other, after) {
        ResumptionKeeps(Prune(h, now), other, after, cid, schedule, sid, start);
        ResumptionRetention(Prune(h, now), other, after, cid, schedule);
      }
    case DoPublish(recipients, p, now, schedules) =>
      PruneKeeps(h, sid, start, now);
      PruneFrame(h, now);
      PublishKeeps(Prune(h, now), Owed(Prune(h, now), recipients, p), schedules, sid, start);
      DispatchRetention(Prune(h, now), Owed(Prune(h, now), recipients, p), schedules);
    case Sweep(now) =>
      PruneKeeps(h, sid, start, now);
      PruneFrame(h, now);
    case DoDetach(other, cid, now) =>
      DetachKeeps(h, other, cid, now, sid, start);
    case Connect(cid, e) =>
      SameSessions(h, Apply(h, op), sid, start);
    case AckHeartbeat(cid, e) =>
      SameSessions(h, Apply(h, op), sid, start);
    case WriteOrTerminate(cid, e) =>
      SameSessions(h, Apply(h, op), sid, start);
  }

  lemma SameSessions(h: HubState, h': HubState, sid: ID, start: Time)
    requires KeptSince(h, sid, start) && h'.sessions == h.sessions
    ensures KeptSince(h', sid, start)
  {
  }

  lemma OpenedKeeps(
    h: HubState, other: ID, user: ID, intents: Intents, cid: ID, e: Schedule, sid: ID, start: Time)
    requires KeptSince(h, sid, start) && cid in h.conns && start <= e.at
    ensures KeptSince(Opened(h, other, user, intents, cid, e), sid, start)
  {
    hide Offer, AppendEvent;
  }

  lemma DetachKeeps(h: HubState, other: ID, cid: ID, now: Time, sid: ID, start: Time)
    requires KeptSince(h, sid, start) && start <= now
    ensures KeptSince(Detach(h, other, cid, now), sid, start)
  {
  }

  lemma ResumptionRetention(h: HubState, sid: ID, after: nat, cid: ID, schedule: nat -> Schedule)
    requires sid in h.sessions && sid in h.history && cid in h.conns
    ensures Resumption(h, sid, after, cid, schedule).0.retention == h.retention
  {
  }

  lemma DispatchRetention(h: HubState, owed: map<ID, Event>, schedule: ID -> Schedule)
    ensures DispatchAll(h, owed, schedule).retention == h.retention
  {
  }

  ghost predicate AllBetween(ops: seq<Op>, start: Time, end: Time) {
    forall op | op in ops :: Between(op, start, end)
  }

  /**
    A session that was connected or detached at the time start or later survives every run whose clock
    stays before start plus the retention, however often it is resumed and cut off meanwhile.
  */
  lemma {:induction false} SessionsOutliveRetention(h: HubState, ops: seq<Op>, sid: ID, start: Time)
    requires Inv(h) && Possible(h, ops) && KeptSince(h, sid, start) && AllBetween(ops, start, start + h.retention)
    ensures KeptSince(Run(h, ops), sid, start)
    decreases |ops|
  {
    hide Inv, Enabled, Apply, Between, KeptSince;
    if ops != [] {
      assert ops[0] in ops;
      assert forall op | op in ops[1..] :: op in ops;
      StepKeeps(h, ops[0], sid, start, start + h.retention);
      ApplyInv(h, ops[0]);
      SessionsOutliveRetention(Apply(h, ops[0]), ops[1..], sid, start);
    }
  }

  /** In particular, in every run, a session detached at some time is there until its retention has elapsed. */
  lemma DetachedSessionsAreKept(
    bufferSize: nat, retention: Time, before: seq<Op>, sid: ID, later: seq<Op>)
    requires bufferSize >= 1 && Possible(Init(bufferSize, retention), before)
    requires var h := Run(Init(bufferSize, retention), before);
             && sid in h.sessions && h.sessions[sid].disconnectedAt.Some? && Possible(h, later)
             && AllBetween(later, h.sessions[sid].disconnectedAt.value, h.sessions[sid].disconnectedAt.value + h.retention)
    ensures sid in Run(Run(Init(bufferSize, retention), before), later).sessions
  {
    hide Inv, Enabled, Apply, Between, AllBetween, Possible, Run;
    InitInv(bufferSize, retention);
    RunInv(Init(bufferSize, retention), before);
    var h := Run(Init(bufferSize, retention), before);
    SessionsOutliveRetention(h, later, sid, h.sessions[sid].disconnectedAt.value);
  }
}
