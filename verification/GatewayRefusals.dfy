/** What happens to a connection that refuses a dispatch, whichever operation offered it. */
module GatewayRefusals {
  import opened Common
  import opened GatewayProtocol
  import opened GatewayClient
  import opened GatewayHubSpec
  import opened GatewayRuns
  import opened GatewayTheorems

  /** READY, a replayed event, RESUMED or a published event is offered to a connection, which refuses it. */
  ghost predicate Refuses(h: HubState, op: Op, cid: ID)
    requires Enabled(h, op)
  {
    match op
    case DoIdentify(sid, user, intents, c, now, e) =>
      c == cid && !AtCapacity(Prune(h, now), user)
      && !Offer(h.conns[cid].(binding := Some(Binding(sid, 0))), Dispatch(StoredEvent(0, Ready(sid))), e).1
    case DoResume(user, sid, after, c, now, schedule) =>
      c == cid && Resumable(Prune(h, now), user, sid, after) && !Resume(h, user, sid, after, c, now, schedule).1
    case DoPublish(recipients, p, now, schedules) =>
      var h1 := Prune(h, now);
      cid in h1.conns && Serves(h1.sessions, h1.conns[cid], cid) &&
      var sid := h1.conns[cid].binding.value.session;
      sid in Owed(h1, recipients, p)
      && !Offer(h1.conns[cid], Dispatch(StoredEvent(h1.sessions[sid].sequence + 1, Owed(h1, recipients, p)[sid])),
                schedules(sid)).1
    case _ => false
  }

  lemma ReadyRefused(h: HubState, sid: ID, user: ID, intents: Intents, cid: ID, e: Schedule)
    requires cid in h.conns
    requires !Offer(h.conns[cid].(binding := Some(Binding(sid, 0))), Dispatch(StoredEvent(0, Ready(sid))), e).1
    ensures Stale(Opened(h, sid, user, intents, cid, e), cid)
  {
    OfferKeepsBinding(h.conns[cid].(binding := Some(Binding(sid, 0))), Dispatch(StoredEvent(0, Ready(sid))), e);
    hide Offer;
  }

  lemma {:induction false} ReplayKeepsBinding(c: Conn, events: seq<StoredEvent>, after: int, i: nat, schedule: nat -> Schedule)
    requires i <= |events|
    ensures Replay(c, events, after, i, schedule).0.binding == c.binding
    decreases |events| - i
  {
    hide Offer;
    if i < |events| {
      if events[i].sequence > after {
        OfferKeepsBinding(c, Dispatch(events[i]), schedule(i));
        ReplayKeepsBinding(Offer(c, Dispatch(events[i]), schedule(i)).0, events, after, i + 1, schedule);
      } else {
        ReplayKeepsBinding(c, events, after, i + 1, schedule);
      }
    }
  }

  /** A replay or RESUMED that is refused part-way. */
  lemma ResumptionRefused(h: HubState, sid: ID, after: nat, cid: ID, schedule: nat -> Schedule)
    requires sid in h.sessions && sid in h.history && cid in h.conns
    requires !Resumption(h, sid, after, cid, schedule).1
    ensures Stale(Resumption(h, sid, after, cid, schedule).0, cid)
  {
    hide Offer, Replay, AppendEvent, LogAppended;
    var conns := Superseded(h.conns, h.sessions[sid].client, cid);
    ReplayKeepsBinding(conns[cid].(binding := Some(Binding(sid, after + 1))), h.sessions[sid].events, after, 0, schedule);
    var (h1, ok) := Replayed(h, sid, after, cid, schedule);
    if ok {
      OfferKeepsBinding(h1.conns[cid], Dispatch(StoredEvent(h1.sessions[sid].sequence + 1, Resumed)),
                        schedule(|h.sessions[sid].events|));
    }
  }

  lemma PublishRefused(h: HubState, owed: map<ID, Event>, cid: ID, schedule: ID -> Schedule)
    requires Inv(h) && cid in h.conns && Serves(h.sessions, h.conns[cid], cid)
    requires var sid := h.conns[cid].binding.value.session;
             sid in owed
             && !Offer(h.conns[cid], Dispatch(StoredEvent(h.sessions[sid].sequence + 1, owed[sid])), schedule(sid)).1
    ensures Stale(DispatchAll(h, owed, schedule), cid)
  {
    hide Inv, AppendEvent, LogAppended;
    var sid := h.conns[cid].binding.value.session;
    OfferKeepsBinding(h.conns[cid], Dispatch(StoredEvent(h.sessions[sid].sequence + 1, owed[sid])), schedule(sid));
    hide Offer;
  }

  /** A connection that refuses a dispatch loses its session in the same operation. */
  lemma RefusalLosesTheSession(h: HubState, op: Op, cid: ID)
    requires Inv(h) && Enabled(h, op) && Refuses(h, op, cid)
    ensures Stale(Apply(h, op), cid)
  {
    hide Inv, Offer, Opened, Resumption, RemoveAll, DispatchAll, Owed, Stale, Serves;
    match op
    case DoIdentify(sid, user, intents, c, now, e) =>
      PruneFrame(h, now);
      ReadyRefused(Prune(h, now), sid, user, intents, cid, e);
    case DoResume(user, sid, after, c, now, schedule) =>
      PruneFrame(h, now);
      ResumptionRefused(Prune(h, now), sid, after, cid, schedule);
    case DoPublish(recipients, p, now, schedules) =>
      RemoveAllInv(h, ExpiredSessions(h, now));
      PublishRefused(Prune(h, now), Owed(Prune(h, now), recipients, p), cid, schedules);
    case _ =>
  }

  /** In every run, nothing follows a refused dispatch: the connection never gets another one. */
  lemma NothingFollowsARefusal(bufferSize: nat, retention: Time, before: seq<Op>, op: Op, cid: ID, later: seq<Op>)
    requires bufferSize >= 1 && Possible(Init(bufferSize, retention), before)
    requires var h := Run(Init(bufferSize, retention), before);
             Enabled(h, op) && Refuses(h, op, cid) && Possible(Apply(h, op), later)
    ensures var h1 := Apply(Run(Init(bufferSize, retention), before), op);
            && cid in h1.conns && cid in Run(h1, later).conns
            && Dispatches(Run(h1, later).conns[cid].placed) == Dispatches(h1.conns[cid].placed)
  {
    hide Inv, Enabled, Apply, Possible, Run, Dispatches, Refuses;
    InitInv(bufferSize, retention);
    RunInv(Init(bufferSize, retention), before);
    var h := Run(Init(bufferSize, retention), before);
    RefusalLosesTheSession(h, op, cid);
    ApplyInv(h, op);
    NothingAfterLosingTheSession(Apply(h, op), later, cid);
  }
}
