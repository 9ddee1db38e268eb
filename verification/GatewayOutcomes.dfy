/** When identify, resume and detach succeed, what they leave, and whose connections they serve. */
module GatewayOutcomes {
  import opened Common
  import opened GatewayProtocol
  import opened GatewayClient
  import opened GatewayHubSpec
  import opened GatewayRuns
  import opened GatewayTheorems
  import opened GatewayRefusals

  /** A session that pruning at this time leaves. */
  predicate Survives(h: HubState, sid: ID, now: Time) {
    sid in h.sessions &&
    var s := h.sessions[sid];
    s.disconnectedAt.None? || now - s.disconnectedAt.value < h.retention
  }

  lemma PruneLeavesSurvivors(h: HubState, now: Time, sid: ID)
    ensures sid in Prune(h, now).sessions <==> Survives(h, sid, now)
    ensures sid in Prune(h, now).sessions ==> sid in h.sessions && Prune(h, now).sessions[sid] == h.sessions[sid]
  {
  }

  // ---------- Resume ----------

  /** It is the caller's own session, still there, and everything the client missed is still buffered. */
  ghost predicate MayResume(h: HubState, user: ID, sid: ID, after: int, now: Time) {
    && Survives(h, sid, now) && h.sessions[sid].user == user
    && sid in h.history && 0 <= after < |h.history[sid].log|
    && forall k | after < k < |h.history[sid].log| ::
         StoredEvent(k, h.history[sid].log[k]) in h.sessions[sid].events
  }

  lemma ResumableIffMay(h: HubState, user: ID, sid: ID, after: int, now: Time)
    requires Inv(h)
    ensures Resumable(Prune(h, now), user, sid, after) <==> MayResume(h, user, sid, after, now)
  {
    hide Inv, RemoveAll;
    PruneLeavesSurvivors(h, now, sid);
    PruneFrame(h, now);
    RemoveAllInv(h, ExpiredSessions(h, now));
    if Survives(h, sid, now) && h.sessions[sid].user == user {
      ResumableIffNothingLost(Prune(h, now), user, sid, after);
    }
  }

  /** Any other resume is refused and does nothing but prune; so nobody resumes a session of somebody else. */
  lemma OthersCannotResume(h: HubState, user: ID, sid: ID, after: int, cid: ID, now: Time, schedule: nat -> Schedule)
    requires Inv(h) && Enabled(h, DoResume(user, sid, after, cid, now, schedule))
    requires !MayResume(h, user, sid, after, now)
    ensures Resume(h, user, sid, after, cid, now, schedule) == (Prune(h, now), false)
    ensures Prune(h, now).conns == h.conns && Prune(h, now).history == h.history
  {
    hide Inv, RemoveAll, MayResume, Resumption;
    PruneFrame(h, now);
    ResumableIffMay(h, user, sid, after, now);
  }

  /** On a fresh connection that nobody disturbs these resumes and no others succeed. */
  lemma ResumesIffAllowed(h: HubState, user: ID, sid: ID, after: int, cid: ID, now: Time, schedule: nat -> Schedule)
    requires Inv(h) && Enabled(h, DoResume(user, sid, after, cid, now, schedule))
    requires !h.conns[cid].done && |h.conns[cid].placed| <= 1 && Undisturbed(schedule)
    ensures Resume(h, user, sid, after, cid, now, schedule).1 <==> MayResume(h, user, sid, after, now)
  {
    hide Inv, RemoveAll, MayResume, Resumption, Resume;
    PruneFrame(h, now);
    ResumableIffMay(h, user, sid, after, now);
    ResumeFits(h, user, sid, after, cid, now, schedule);
  }

  /** The connection that held the session until then is terminated, and no other one or session is touched. */
  lemma ResumeTouchesOneSession(
    h: HubState, user: ID, sid: ID, after: int, cid: ID, now: Time, schedule: nat -> Schedule, other: ID, c: ID)
    requires Inv(h) && Enabled(h, DoResume(user, sid, after, cid, now, schedule)) && MayResume(h, user, sid, after, now)
    ensures var h' := Resume(h, user, sid, after, cid, now, schedule).0;
            && (other in h'.sessions <==> Survives(h, other, now))
            && (other in h'.sessions && other != sid ==> h'.sessions[other] == h.sessions[other])
            && (c in h'.conns <==> c in h.conns)
            && (c in h.conns && c != cid ==>
                  h'.conns[c] == if h.sessions[sid].client == Some(c) then h.conns[c].(done := true) else h.conns[c])
  {
    hide Inv, RemoveAll, MayResume, Replay, Offer, AppendEvent, LogAppended, Survives;
    PruneFrame(h, now);
    PruneLeavesSurvivors(h, now, sid);
    PruneLeavesSurvivors(h, now, other);
    ResumableIffMay(h, user, sid, after, now);
  }

  // ---------- Identify ----------

  /** The sessions of a user that pruning leaves. */
  function SurvivorsOf(h: HubState, user: ID, now: Time): set<ID> {
    set sid | sid in h.sessions && Survives(h, sid, now) && h.sessions[sid].user == user
  }

  function AllSurvivors(h: HubState, now: Time): set<ID> {
    set sid | sid in h.sessions && Survives(h, sid, now)
  }

  lemma UserIndexCounts(h: HubState, user: ID, now: Time)
    requires Inv(h)
    ensures var h1 := Prune(h, now);
            && |h1.sessions| == |AllSurvivors(h, now)|
            && (if user in h1.byUser then h1.byUser[user] == SurvivorsOf(h, user, now) else SurvivorsOf(h, user, now) == {})
  {
    hide Inv, RemoveAll, Survives;
    var h1 := Prune(h, now);
    RemoveAllInv(h, ExpiredSessions(h, now));
    InvTables(h1);
    forall sid
      ensures sid in h1.sessions <==> Survives(h, sid, now)
      ensures sid in h1.sessions ==> sid in h.sessions && h1.sessions[sid] == h.sessions[sid]
    {
      PruneLeavesSurvivors(h, now, sid);
      PruneFrame(h, now);
    }
    hide Prune;
    assert h1.sessions.Keys == AllSurvivors(h, now);
    IndexedUser(h1, user);
    assert SurvivorsOf(h, user, now) == set sid | sid in h1.sessions && h1.sessions[sid].user == user;
  }

  lemma IndexedUser(h: HubState, user: ID)
    requires Indexed(h.sessions, h.byUser)
    ensures var own := set sid | sid in h.sessions && h.sessions[sid].user == user;
            if user in h.byUser then h.byUser[user] == own else own == {}
  {
  }

  /** Identify is refused exactly at one of the two limits, and then does nothing but prune. */
  lemma IdentifiesIffRoom(h: HubState, sid: ID, user: ID, intents: Intents, cid: ID, now: Time, e: Schedule)
    requires Inv(h) && Enabled(h, DoIdentify(sid, user, intents, cid, now, e))
    ensures var (h', ok) := Identify(h, sid, user, intents, cid, now, e);
            && (ok <==> |AllSurvivors(h, now)| < 10_000 && |SurvivorsOf(h, user, now)| < 10)
            && (!ok ==> h' == Prune(h, now))
  {
    hide Inv, RemoveAll, Opened, Survives;
    PruneFrame(h, now);
    UserIndexCounts(h, user, now);
  }

  /** Otherwise there is one new session, of this user and with these intents, whose log is READY. */
  lemma IdentifyOpensASession(
    h: HubState, sid: ID, user: ID, intents: Intents, cid: ID, now: Time, e: Schedule, other: ID, c: ID)
    requires Inv(h) && Enabled(h, DoIdentify(sid, user, intents, cid, now, e))
    requires Identify(h, sid, user, intents, cid, now, e).1
    ensures var h' := Identify(h, sid, user, intents, cid, now, e).0;
            && sid in h'.sessions && cid in h'.conns && sid in h'.history
            && var s := h'.sessions[sid];
               && s.user == user && s.intents == intents && s.sequence == 0 && s.events == [StoredEvent(0, Ready(sid))]
               && h'.history[sid] == History(user, intents, [Ready(sid)])
               && h'.conns[cid].binding == Some(Binding(sid, 0))
               && HandedOrLost(h.conns[cid], h'.conns[cid], s, cid, StoredEvent(0, Ready(sid)), e)
               && (other != sid ==> (other in h'.sessions <==> Survives(h, other, now)))
               && (other != sid && other in h'.sessions ==> h'.sessions[other] == h.sessions[other])
               && (c != cid ==> (c in h'.conns <==> c in h.conns) && (c in h.conns ==> h'.conns[c] == h.conns[c]))
  {
    hide Inv, RemoveAll, Survives, Dispatches, HandedOrLost, Opened;
    PruneFrame(h, now);
    PruneLeavesSurvivors(h, now, other);
    ConnFacts(h, cid);
    BufferAtLeastOne(h);
    OpenedFields(Prune(h, now), sid, user, intents, cid, e, other, c);
  }

  lemma BufferAtLeastOne(h: HubState)
    requires Inv(h)
    ensures h.bufferSize >= 1
  {
  }

  lemma OpenedFields(h: HubState, sid: ID, user: ID, intents: Intents, cid: ID, e: Schedule, other: ID, c: ID)
    requires Unbound(h, cid) && h.conns[cid].Valid() && h.bufferSize >= 1
    ensures var h' := Opened(h, sid, user, intents, cid, e);
            && sid in h'.sessions && cid in h'.conns && sid in h'.history
            && var s := h'.sessions[sid];
               && s.user == user && s.intents == intents && s.sequence == 0 && s.events == [StoredEvent(0, Ready(sid))]
               && h'.history[sid] == History(user, intents, [Ready(sid)])
               && h'.conns[cid].binding == Some(Binding(sid, 0))
               && HandedOrLost(h.conns[cid], h'.conns[cid], s, cid, StoredEvent(0, Ready(sid)), e)
               && (other != sid ==> (other in h'.sessions <==> other in h.sessions))
               && (other != sid && other in h.sessions ==> h'.sessions[other] == h.sessions[other])
               && (c != cid ==> (c in h'.conns <==> c in h.conns) && (c in h.conns ==> h'.conns[c] == h.conns[c]))
  {
    var first := StoredEvent(0, Ready(sid));
    var c0 := h.conns[cid].(binding := Some(Binding(sid, 0)));
    ReadyAnswered(c0, cid, first, user, intents, e, h.bufferSize);
    hide Offer, HandedOrLost, AppendEvent, Detached;
  }

  lemma ReadyAnswered(c: Conn, cid: ID, first: StoredEvent, user: ID, intents: Intents, e: Schedule, bufferSize: nat)
    requires c.Valid() && bufferSize >= 1
    ensures var (c', ok) := Offer(c, Dispatch(first), e);
            var s := SessionState(user, intents, 0, AppendEvent([], first, bufferSize), Some(cid), None);
            var s' := if ok then s else Detached(s, e.at);
            && c'.binding == c.binding && s'.events == [first] && s'.user == user && s'.intents == intents && s'.sequence == 0
            && HandedOrLost(c, c', s', cid, first, e) && HandedOrLost(c.(binding := None), c', s', cid, first, e)
  {
    OfferAnswers(c, Dispatch(first), e);
    OfferKeepsBinding(c, Dispatch(first), e);
    hide Offer, Dispatches, Conn.Valid;
  }

  // ---------- Detach ----------

  /** A connection that serves its session leaves it detached from now on, and nothing else changes. */
  lemma DetachLeavesTheSession(h: HubState, sid: ID, cid: ID, now: Time, other: ID)
    requires Inv(h) && sid in h.sessions && h.sessions[sid].client == Some(cid)
    ensures var h' := Detach(h, sid, cid, now);
            && h'.conns == h.conns && h'.history == h.history && h'.byUser == h.byUser
            && h'.sessions.Keys == h.sessions.Keys
            && h'.sessions[sid].client == None && h'.sessions[sid].disconnectedAt == Some(now)
            && h'.sessions[sid].events == h.sessions[sid].events && h'.sessions[sid].sequence == h.sessions[sid].sequence
            && h'.sessions[sid].user == h.sessions[sid].user && h'.sessions[sid].intents == h.sessions[sid].intents
            && (other in h.sessions && other != sid ==> h'.sessions[other] == h.sessions[other])
  {
    hide Inv;
  }

  // ---------- Whose connections ----------

  /** An operation by which a user, authenticated, presents a connection. */
  predicate Presents(op: Op, cid: ID, user: ID) {
    (op.DoIdentify? && op.cid == cid && op.user == user) || (op.DoResume? && op.cid == cid && op.user == user)
  }

  /** The connection is free, or there is none yet. */
  predicate Free(h: HubState, cid: ID) {
    cid !in h.conns || h.conns[cid].binding.None?
  }

  /** A connection that is given to a session is presented by the user of that session. */
  lemma BoundByItsUser(h: HubState, op: Op, cid: ID)
    requires Inv(h) && Enabled(h, op) && Free(h, cid) && !Free(Apply(h, op), cid)
    ensures Apply(h, op).conns[cid].binding.value.session in Apply(h, op).history
    ensures Presents(op, cid, Apply(h, op).history[Apply(h, op).conns[cid].binding.value.session].user)
  {
    hide Inv, RemoveAll, Opened, Resumption, DispatchAll, Owed, Offer, Interrupted, Dispatches, MayResume;
    match op
    case DoIdentify(sid, user, intents, c, now, e) =>
      PruneFrame(h, now);
      ConnFacts(h, c);
      BufferAtLeastOne(h);
      OpenedFields(Prune(h, now), sid, user, intents, c, e, sid, cid);
    case DoResume(user, sid, after, c, now, schedule) =>
      PruneFrame(h, now);
      RemoveAllInv(h, ExpiredSessions(h, now));
      ResumableIffMay(h, user, sid, after, now);
      if Resumable(Prune(h, now), user, sid, after) {
        SessionFacts(Prune(h, now), sid);
        ResumptionBinds(Prune(h, now), sid, after, c, schedule, cid);
        SameHistoryUser(Prune(h, now), sid);
      }
    case DoPublish(recipients, p, now, schedules) =>
      PruneFrame(h, now);
      DispatchBinds(Prune(h, now), Owed(Prune(h, now), recipients, p), schedules, cid);
    case Connect(c, e) =>
      OfferKeepsBinding(Conn(h.bufferSize + 8, false, [], 0, [], None), Hello, e);
    case AckHeartbeat(c, e) =>
      OfferKeepsBinding(h.conns[c], HeartbeatAck, e);
    case WriteOrTerminate(c, e) =>
      ConnFacts(h, c);
      InterruptedGrows(h.conns[c], e);
    case Sweep(now) =>
      PruneFrame(h, now);
    case DoDetach(sid, c, now) =>
  }

  lemma SameHistoryUser(h: HubState, sid: ID)
    requires Inv(h) && sid in h.sessions
    ensures sid in h.history && h.history[sid].user == h.sessions[sid].user
  {
  }

  lemma ResumptionBinds(h: HubState, sid: ID, after: nat, cid: ID, schedule: nat -> Schedule, c: ID)
    requires sid in h.sessions && sid in h.history && cid in h.conns
    ensures var h' := Resumption(h, sid, after, cid, schedule).0;
            && (c in h'.conns <==> c in h.conns)
            && (c in h.conns ==> h'.conns[c].binding == if c == cid then Some(Binding(sid, after + 1)) else h.conns[c].binding)
            && sid in h'.history && h'.history[sid].user == h.history[sid].user
  {
    hide Offer, Replay, AppendEvent;
    var conns := Superseded(h.conns, h.sessions[sid].client, cid);
    ReplayKeepsBinding(conns[cid].(binding := Some(Binding(sid, after + 1))), h.sessions[sid].events, after, 0, schedule);
    var (h1, ok) := Replayed(h, sid, after, cid, schedule);
    if ok {
      OfferKeepsBinding(h1.conns[cid], Dispatch(StoredEvent(h1.sessions[sid].sequence + 1, Resumed)),
                        schedule(|h.sessions[sid].events|));
    }
  }

  lemma DispatchBinds(h: HubState, owed: map<ID, Event>, schedule: ID -> Schedule, cid: ID)
    ensures var h' := DispatchAll(h, owed, schedule);
            (cid in h'.conns <==> cid in h.conns) && (cid in h.conns ==> h'.conns[cid].binding == h.conns[cid].binding)
  {
    hide DeliverTo, LogAppended;
    if cid in h.conns && Serves(h.sessions, h.conns[cid], cid) && h.conns[cid].binding.value.session in owed {
      var sid := h.conns[cid].binding.value.session;
      OfferKeepsBinding(h.conns[cid], Dispatch(StoredEvent(h.sessions[sid].sequence + 1, owed[sid])), schedule(sid));
    }
    hide Offer;
  }

  lemma {:induction false} BoundDuring(h: HubState, ops: seq<Op>, cid: ID)
    requires Inv(h) && Possible(h, ops) && Free(h, cid) && !Free(Run(h, ops), cid)
    ensures var h' := Run(h, ops); var sid := h'.conns[cid].binding.value.session;
            sid in h'.history && exists op :: op in ops && Presents(op, cid, h'.history[sid].user)
    decreases |ops|
  {
    hide Inv, Enabled, Apply, Presents, Continues;
    var h1 := Apply(h, ops[0]);
    ApplyInv(h, ops[0]);
    if Free(h1, cid) {
      BoundDuring(h1, ops[1..], cid);
      var op :| op in ops[1..] && Presents(op, cid, Run(h, ops).history[Run(h, ops).conns[cid].binding.value.session].user);
      assert op in ops;
    } else {
      BoundByItsUser(h, ops[0], cid);
      RunContinues(h1, ops[1..]);
      BindingSticks(h1, Run(h1, ops[1..]), cid);
      UserSticks(h1, Run(h1, ops[1..]), h1.conns[cid].binding.value.session);
      assert ops[0] in ops;
    }
  }

  lemma UserSticks(h: HubState, h': HubState, sid: ID)
    requires Continues(h, h') && sid in h.history
    ensures sid in h'.history && h'.history[sid].user == h.history[sid].user
  {
  }

  /** In every run a connection serves, if any, a session of a user who presented that connection. */
  lemma ConnectionsServeTheirUsers(bufferSize: nat, retention: Time, ops: seq<Op>, cid: ID)
    requires bufferSize >= 1 && Possible(Init(bufferSize, retention), ops)
    requires var h := Run(Init(bufferSize, retention), ops); cid in h.conns && h.conns[cid].binding.Some?
    ensures var h := Run(Init(bufferSize, retention), ops); var sid := h.conns[cid].binding.value.session;
            sid in h.history && exists op :: op in ops && Presents(op, cid, h.history[sid].user)
  {
    hide Inv;
    InitInv(bufferSize, retention);
    BoundDuring(Init(bufferSize, retention), ops, cid);
  }
}
