/** What the gateway promises its clients, over every run. */
module GatewayTheorems {
  import opened Common
  import opened GatewayProtocol
  import opened GatewayClient
  import opened GatewayHubSpec
  import opened GatewayRuns

  // ---------- Delivery ----------

  /** In every run the dispatches of a connection are one gapless block of its session's log. */
  lemma EveryConnectionGetsABlock(bufferSize: nat, retention: Time, ops: seq<Op>, cid: ID)
    requires bufferSize >= 1 && Possible(Init(bufferSize, retention), ops)
    requires cid in Run(Init(bufferSize, retention), ops).conns
    ensures var h := Run(Init(bufferSize, retention), ops);
            match h.conns[cid].binding
            case None => Dispatches(h.conns[cid].placed) == []
            case Some(b) => b.session in h.history
                            && IsBlock(Dispatches(h.conns[cid].placed), h.history[b.session].log, b.start)
  {
    InitInv(bufferSize, retention);
    RunInv(Init(bufferSize, retention), ops);
    ConnFacts(Run(Init(bufferSize, retention), ops), cid);
  }

  lemma BlockAfterRun(h: HubState, ops: seq<Op>, cid: ID, b: Binding)
    requires Inv(h) && Possible(h, ops) && cid in h.conns && h.conns[cid].binding == Some(b)
    ensures var h' := Run(h, ops);
            cid in h'.conns && b.session in h'.history
            && IsBlock(Dispatches(h'.conns[cid].placed), h'.history[b.session].log, b.start)
  {
    hide Inv, Continues, Run, Dispatches;
    RunContinues(h, ops);
    BindingSticks(h, Run(h, ops), cid);
    ConnFacts(Run(h, ops), cid);
    hide IsBlock;
  }

  /** After identify, h1, the block starts with entry 0, READY, whatever happens later. */
  lemma IdentifiedFromTheStart(
    h: HubState, sid: ID, user: ID, intents: Intents, cid: ID, now: Time, e: Schedule, h1: HubState, ops: seq<Op>)
    requires Inv(h) && Enabled(h, DoIdentify(sid, user, intents, cid, now, e))
    requires Identify(h, sid, user, intents, cid, now, e) == (h1, true)
    requires Possible(h1, ops)
    ensures var h' := Run(h1, ops);
            && cid in h'.conns && sid in h'.history
            && [Ready(sid)] <= h'.history[sid].log
            && IsBlock(Dispatches(h'.conns[cid].placed), h'.history[sid].log, 0)
  {
    hide Inv, Continues, Run, Dispatches, Opened, RemoveAll, IsBlock;
    var pruned := Prune(h, now);
    PruneFrame(h, now);
    RemoveAllInv(h, ExpiredSessions(h, now));
    OpenedInv(pruned, sid, user, intents, cid, e);
    OpenedContinues(pruned, sid, user, intents, cid, e);
    OpenedLog(pruned, sid, user, intents, cid, e);
    RunContinues(h1, ops);
    LogGrows(h1, Run(h1, ops), sid);
    BlockAfterRun(h1, ops, cid, Binding(sid, 0));
  }

  lemma OpenedLog(h: HubState, sid: ID, user: ID, intents: Intents, cid: ID, e: Schedule)
    requires cid in h.conns
    ensures cid in Opened(h, sid, user, intents, cid, e).conns
    ensures sid in Opened(h, sid, user, intents, cid, e).history
    ensures Opened(h, sid, user, intents, cid, e).history[sid].log == [Ready(sid)]
  {
    hide Offer;
  }

  lemma LogGrows(h: HubState, h': HubState, sid: ID)
    requires Continues(h, h') && sid in h.history
    ensures sid in h'.history && h.history[sid].log <= h'.history[sid].log
  {
  }

  /** After resume, h1, the block starts right behind the sequence the client said it had. */
  lemma ResumedFromWhereItStopped(
    h: HubState, user: ID, sid: ID, after: int, cid: ID, now: Time, schedule: nat -> Schedule, h1: HubState, ops: seq<Op>)
    requires Inv(h) && Enabled(h, DoResume(user, sid, after, cid, now, schedule))
    requires Resumable(Prune(h, now), user, sid, after)
    requires Resume(h, user, sid, after, cid, now, schedule).0 == h1
    requires Possible(h1, ops)
    ensures var h' := Run(h1, ops);
            && cid in h'.conns && sid in h'.history
            && IsBlock(Dispatches(h'.conns[cid].placed), h'.history[sid].log, after + 1)
  {
    hide Inv, Continues, Run, Dispatches, Resumption, RemoveAll, IsBlock;
    var pruned := Prune(h, now);
    PruneFrame(h, now);
    RemoveAllInv(h, ExpiredSessions(h, now));
    ResumptionInv(pruned, sid, after, cid, schedule);
    ResumptionContinues(pruned, sid, after, cid, schedule);
    ConnStays(pruned, h1, cid);
    BlockAfterRun(h1, ops, cid, Binding(sid, after + 1));
  }

  lemma ConnStays(h: HubState, h': HubState, cid: ID)
    requires Continues(h, h') && cid in h.conns
    ensures cid in h'.conns
  {
  }

  /** Once a connection has lost its session, after a failed enqueue for one, it gets no dispatch ever again. */
  lemma NothingAfterLosingTheSession(h: HubState, ops: seq<Op>, cid: ID)
    requires Inv(h) && Possible(h, ops) && Stale(h, cid)
    ensures cid in Run(h, ops).conns
    ensures Dispatches(Run(h, ops).conns[cid].placed) == Dispatches(h.conns[cid].placed)
  {
    hide Inv, Run, Dispatches, ConnsGrow, HistoryGrows, Serves;
    RunContinues(h, ops);
    ConnFacts(h, cid);
    ConnFacts(Run(h, ops), cid);
  }

  /** A dispatch the connection refuses leaves it without its session. */
  lemma RefusalDetaches(h: HubState, sid: ID, cid: ID, event: Event, e: Schedule)
    requires Inv(h) && sid in h.sessions && h.sessions[sid].client == Some(cid)
    ensures cid in h.conns && sid in h.history
    ensures !Offer(h.conns[cid], Dispatch(StoredEvent(h.sessions[sid].sequence + 1, event)), e).1
        ==> Stale(DispatchOne(h, sid, event, e), cid)
  {
    hide Conn.Valid, Indexed, WithinCaps, SessionOk, AllRedacted, ConnsOk;
    var stored := Dispatch(StoredEvent(h.sessions[sid].sequence + 1, event));
    OfferKeepsBinding(h.conns[cid], stored, e);
    hide Offer;
  }

  lemma OfferKeepsBinding(c: Conn, f: Frame, e: Schedule)
    ensures Offer(c, f, e).0.binding == c.binding
  {
  }

  // ---------- A client across all its connections ----------

  /** A client read the first `read` frames that were placed on a connection. */
  datatype Hop = Hop(cid: ID, read: nat)

  ghost predicate HopsExist(h: HubState, hops: seq<Hop>) {
    forall i | 0 <= i < |hops| :: hops[i].cid in h.conns && hops[i].read <= |h.conns[hops[i].cid].placed|
  }

  /** Every dispatch the client processed, connection after connection. */
  ghost function Processed(h: HubState, hops: seq<Hop>): seq<StoredEvent>
    requires HopsExist(h, hops)
  {
    if hops == [] then []
    else
      var last := hops[|hops| - 1];
      Processed(h, hops[..|hops| - 1]) + Dispatches(h.conns[last.cid].placed[..last.read])
  }

  /** The sequence a client asks to go on from: the one after the last it processed. */
  function NextSequence(processed: seq<StoredEvent>): int {
    if processed == [] then 0 else processed[|processed| - 1].sequence + 1
  }

  /** The client identified on its first connection and always resumed from what it last processed. */
  ghost predicate ResumesFaithfully(h: HubState, sid: ID, hops: seq<Hop>)
    requires HopsExist(h, hops)
  {
    hops == [] ||
    var before := hops[..|hops| - 1];
    var b := h.conns[hops[|hops| - 1].cid].binding;
    && ResumesFaithfully(h, sid, before)
    && b.Some? && b.value.session == sid && b.value.start == NextSequence(Processed(h, before))
  }

  /**
    However often it is cut off, a client that always resumes from its last processed
    sequence processes exactly a prefix of its session's log: no gap, no duplicate, no
    reordering.
  */
  lemma {:induction false} ClientProcessesAPrefix(h: HubState, sid: ID, hops: seq<Hop>)
    requires Inv(h) && HopsExist(h, hops) && ResumesFaithfully(h, sid, hops) && hops != []
    ensures sid in h.history && IsBlock(Processed(h, hops), h.history[sid].log, 0)
  {
    hide Inv;
    var before, last := hops[..|hops| - 1], hops[|hops| - 1];
    var c := h.conns[last.cid];
    ConnFacts(h, last.cid);
    var log := h.history[sid].log;
    if before != [] {
      ClientProcessesAPrefix(h, sid, before);
    }
    NextOfBlock(Processed(h, before), log);
    DispatchesPrefix(c.placed, last.read);
    BlockJoin(Processed(h, before), c.sent, log, |Dispatches(c.placed[..last.read])|);
    assert c.sent[..|Dispatches(c.placed[..last.read])|] == Dispatches(c.placed[..last.read]);
  }

  /** So it is in every run, for every session and every client that resumes faithfully. */
  lemma FaithfulClientsMissNothing(bufferSize: nat, retention: Time, ops: seq<Op>, sid: ID, hops: seq<Hop>)
    requires bufferSize >= 1 && Possible(Init(bufferSize, retention), ops) && hops != []
    requires HopsExist(Run(Init(bufferSize, retention), ops), hops)
    requires ResumesFaithfully(Run(Init(bufferSize, retention), ops), sid, hops)
    ensures var h := Run(Init(bufferSize, retention), ops);
            sid in h.history && IsBlock(Processed(h, hops), h.history[sid].log, 0)
  {
    hide Inv, Possible, Run, Apply, HopsExist, ResumesFaithfully, IsBlock;
    InitInv(bufferSize, retention);
    RunInv(Init(bufferSize, retention), ops);
    ClientProcessesAPrefix(Run(Init(bufferSize, retention), ops), sid, hops);
  }

  lemma NextOfBlock(events: seq<StoredEvent>, log: seq<Event>)
    requires IsBlock(events, log, 0)
    ensures NextSequence(events) == |events|
  {
  }

  lemma BlockJoin(a: seq<StoredEvent>, b: seq<StoredEvent>, log: seq<Event>, n: nat)
    requires IsBlock(a, log, 0) && IsBlock(b, log, |a|) && n <= |b|
    ensures IsBlock(a + b[..n], log, 0)
  {
  }

  // ---------- Buffer and resume exactness ----------

  /** The buffer is always the last min(bufferSize, sequence + 1) entries of the full log. */
  lemma BufferIsTheTail(bufferSize: nat, retention: Time, ops: seq<Op>, sid: ID)
    requires bufferSize >= 1 && Possible(Init(bufferSize, retention), ops)
    requires sid in Run(Init(bufferSize, retention), ops).sessions
    ensures var h := Run(Init(bufferSize, retention), ops);
            && sid in h.history
            && var s, log := h.sessions[sid], h.history[sid].log;
            && s.sequence + 1 == |log|
            && |s.events| == (if s.sequence + 1 < h.bufferSize then s.sequence + 1 else h.bufferSize)
            && forall i | 0 <= i < |s.events| ::
                 var k := |log| - |s.events| + i; s.events[i] == StoredEvent(k, log[k])
  {
    InitInv(bufferSize, retention);
    RunInv(Init(bufferSize, retention), ops);
  }

  /** An owner's resume passes its checks exactly when everything it missed is still buffered. */
  lemma ResumableIffNothingLost(h: HubState, user: ID, sid: ID, after: int)
    requires Inv(h) && sid in h.sessions && h.sessions[sid].user == user
    ensures sid in h.history
    ensures Resumable(h, user, sid, after) <==>
            && 0 <= after < |h.history[sid].log|
            && forall k | after < k < |h.history[sid].log| ::
                 StoredEvent(k, h.history[sid].log[k]) in h.sessions[sid].events
  {
    hide Indexed, WithinCaps, ConnsOk, ClientsOk, AllRedacted;
    ResumableOnValues(h.sessions[sid], h.history[sid], h.bufferSize, after);
  }

  lemma ResumableOnValues(s: SessionState, past: History, bufferSize: nat, after: int)
    requires bufferSize >= 1 && SessionOk(s, past, bufferSize)
    ensures 0 <= after <= s.sequence && !(|s.events| > 0 && after < s.events[0].sequence - 1) <==>
            0 <= after < |past.log| && forall k | after < k < |past.log| :: StoredEvent(k, past.log[k]) in s.events
  {
    var first := |past.log| - |s.events|;
    assert s.events[0].sequence == first;
    if 0 <= after < |past.log| {
      if first <= after + 1 {
        forall k | after < k < |past.log|
          ensures StoredEvent(k, past.log[k]) in s.events
        {
          assert s.events[k - first] == StoredEvent(k, past.log[k]);
        }
      } else {
        assert StoredEvent(after + 1, past.log[after + 1]) !in s.events;
      }
    }
  }

  /** A successful resume hands over exactly the missed entries and RESUMED, nothing else. */
  lemma ResumeReplaysExactly(
    h: HubState, user: ID, sid: ID, after: int, cid: ID, now: Time, schedule: nat -> Schedule)
    requires Inv(h) && Enabled(h, DoResume(user, sid, after, cid, now, schedule))
    requires Resume(h, user, sid, after, cid, now, schedule).1
    ensures var h' := Resume(h, user, sid, after, cid, now, schedule).0;
            && sid in h.history && sid in h'.history && cid in h'.conns
            && h'.history[sid].log == h.history[sid].log + [Resumed]
            && IsBlock(h'.conns[cid].sent, h'.history[sid].log, after + 1)
            && after + 1 + |h'.conns[cid].sent| == |h'.history[sid].log|
            && sid in h'.sessions && h'.sessions[sid].client == Some(cid)
  {
    hide Inv, Continues, RemoveAll, Resumption, IsBlock;
    var h1 := Prune(h, now);
    PruneFrame(h, now);
    RemoveAllInv(h, ExpiredSessions(h, now));
    ResumptionInv(h1, sid, after, cid, schedule);
    ResumptionContinues(h1, sid, after, cid, schedule);
    var h' := Resumption(h1, sid, after, cid, schedule).0;
    ConnStays(h1, h', cid);
    ResumptionLog(h1, sid, after, cid, schedule);
    ServedConn(h', sid, cid);
    ConnFacts(h', cid);
  }

  lemma ServedConn(h: HubState, sid: ID, cid: ID)
    requires Inv(h) && sid in h.sessions && h.sessions[sid].client == Some(cid)
    ensures cid in h.conns && sid in h.history && UpToDate(h.conns[cid], sid, h.history[sid])
  {
  }

  lemma ResumptionLog(h: HubState, sid: ID, after: nat, cid: ID, schedule: nat -> Schedule)
    requires Inv(h) && Unbound(h, cid) && sid in h.sessions && Resumable(h, h.sessions[sid].user, sid, after)
    requires sid in h.history && Resumption(h, sid, after, cid, schedule).1
    ensures var h' := Resumption(h, sid, after, cid, schedule).0;
            && sid in h'.history && h'.history[sid].log == h.history[sid].log + [Resumed]
            && sid in h'.sessions && h'.sessions[sid].client == Some(cid)
  {
    hide Inv, Replay, Offer, AppendEvent, ConnOf;
  }

  // ---------- A fresh connection always holds the replay ----------

  /** Nobody but a full queue terminates the connection. */
  ghost predicate Undisturbed(schedule: nat -> Schedule) {
    forall i :: !schedule(i).killed
  }

  lemma {:induction false} ReplayFits(c: Conn, events: seq<StoredEvent>, after: int, i: nat, schedule: nat -> Schedule)
    requires c.Valid() && !c.done && i <= |events| && Undisturbed(schedule)
    requires c.Waiting() + |events| - i < c.capacity
    ensures var r := Replay(c, events, after, i, schedule);
            && r.1 && !r.0.done && r.0.Valid() && r.0.capacity == c.capacity
            && r.0.Waiting() <= c.Waiting() + |events| - i
    decreases |events| - i
  {
    hide Dispatches;
    if i < |events| {
      if events[i].sequence > after {
        OfferAnswers(c, Dispatch(events[i]), schedule(i));
        ReplayFits(Offer(c, Dispatch(events[i]), schedule(i)).0, events, after, i + 1, schedule);
      } else {
        ReplayFits(c, events, after, i + 1, schedule);
      }
    }
  }

  /**
    HELLO, the replay and RESUMED always fit the queue of a fresh live connection: a
    resume that passes its checks succeeds unless someone terminates the connection.
  */
  lemma ResumeFits(h: HubState, user: ID, sid: ID, after: int, cid: ID, now: Time, schedule: nat -> Schedule)
    requires Inv(h) && Enabled(h, DoResume(user, sid, after, cid, now, schedule))
    requires !h.conns[cid].done && |h.conns[cid].placed| <= 1
    requires Undisturbed(schedule)
    ensures Resume(h, user, sid, after, cid, now, schedule).1 <==> Resumable(Prune(h, now), user, sid, after)
  {
    hide Inv, RemoveAll, Resumption, IsBlock, Conn.Valid, SessionOk;
    var h1 := Prune(h, now);
    PruneFrame(h, now);
    RemoveAllInv(h, ExpiredSessions(h, now));
    if Resumable(h1, user, sid, after) {
      ConnFacts(h, cid);
      SessionFacts(h1, sid);
      ResumptionFits(h1, sid, after, cid, schedule);
    }
  }

  lemma SessionFacts(h: HubState, sid: ID)
    requires Inv(h) && sid in h.sessions
    ensures sid in h.history && SessionOk(h.sessions[sid], h.history[sid], h.bufferSize)
    ensures |h.sessions[sid].events| <= h.bufferSize
    ensures h.sessions[sid].client.Some? ==> h.sessions[sid].client.value in h.conns
                                             && h.conns[h.sessions[sid].client.value].binding.Some?
  {
  }

  lemma ResumptionFits(h: HubState, sid: ID, after: nat, cid: ID, schedule: nat -> Schedule)
    requires sid in h.sessions && sid in h.history && Unbound(h, cid)
    requires h.sessions[sid].client != Some(cid)
    requires h.conns[cid].Valid() && !h.conns[cid].done && |h.conns[cid].placed| <= 1
    requires h.conns[cid].capacity == h.bufferSize + 8 && |h.sessions[sid].events| <= h.bufferSize
    requires Undisturbed(schedule)
    ensures Resumption(h, sid, after, cid, schedule).1
  {
    hide Replay, Dispatches, AppendEvent;
    var s := h.sessions[sid];
    var c := h.conns[cid].(binding := Some(Binding(sid, after + 1)));
    ReplayFits(c, s.events, after, 0, schedule);
    var c' := Replay(c, s.events, after, 0, schedule).0;
    OfferAnswers(c', Dispatch(StoredEvent(s.sequence + 1, Resumed)), schedule(|s.events|));
    hide Offer;
  }

  // ---------- Publishing ----------

  /** A connection that accepts was handed one dispatch; any other took nothing, is terminated, and lost its session. */
  ghost predicate HandedOrLost(c: Conn, c': Conn, s': SessionState, cid: ID, stored: StoredEvent, e: Schedule) {
    if Accepts(c, e) then c'.placed == c.placed + [Dispatch(stored)] && s'.client == Some(cid)
    else c'.placed == c.placed && c'.done && s'.client.None? && s'.disconnectedAt == Some(e.at)
  }

  /** What a run added to a log, if it was one event. */
  function Added(log: seq<Event>, log': seq<Event>): Option<Event> {
    if |log'| == |log| + 1 then Some(log'[|log|]) else None
  }

  /**
    A publication gives each session of a recipient exactly the one new event it is owed, if
    any, under the next sequence number, and hands its connection just that, or terminates and
    detaches it; every other session, its buffer and its connection stay as they were.
  */
  lemma PublishDeliversOnce(h: HubState, recipients: set<ID>, p: Publication, now: Time, schedule: ID -> Schedule, sid: ID)
    requires Inv(h) && WellFormedPublication(p) && sid in Prune(h, now).sessions
    ensures sid in h.history && sid in Publish(h, recipients, p, now, schedule).history
    ensures var h' := Publish(h, recipients, p, now, schedule);
            var s := h.sessions[sid];
            var event := Added(h.history[sid].log, h'.history[sid].log);
            && (if s.user in recipients then IsOwed(p, s.intents, event) else event.None?)
            && sid in h'.sessions
            && (s.client.Some? ==> s.client.value in h.conns && s.client.value in h'.conns)
            && match event
               case None =>
                 && h'.sessions[sid] == s && h'.history[sid] == h.history[sid]
                 && (s.client.Some? ==> h'.conns[s.client.value] == h.conns[s.client.value])
               case Some(event) =>
                 && h'.history[sid].log == h.history[sid].log + [event]
                 && h'.sessions[sid].sequence == s.sequence + 1
                 && |h'.sessions[sid].events| >= 1
                 && h'.sessions[sid].events[|h'.sessions[sid].events| - 1] == StoredEvent(s.sequence + 1, event)
                 && h'.sessions[sid].user == s.user && h'.sessions[sid].intents == s.intents
                 && (s.client.None? ==> h'.sessions[sid].client.None?)
                 && (s.client.Some? ==>
                       HandedOrLost(h.conns[s.client.value], h'.conns[s.client.value], h'.sessions[sid],
                                    s.client.value, StoredEvent(s.sequence + 1, event), schedule(sid)))
  {
    hide Inv, RemoveAll, Owed, HandedOrLost, IsOwed, EventFor, RevealsContent, DispatchAll;
    var h1 := Prune(h, now);
    PruneFrame(h, now);
    RemoveAllInv(h, ExpiredSessions(h, now));
    PruneKeepsSession(h, now, sid);
    OwedIsOk(h1, recipients, p);
    OwedAt(h1, recipients, p, sid);
    EventForIsOwed(p, h.sessions[sid].intents);
    DispatchDelivers(h1, Owed(h1, recipients, p), schedule, sid);
  }

  lemma OwedAt(h: HubState, recipients: set<ID>, p: Publication, sid: ID)
    requires sid in h.sessions
    ensures var s := h.sessions[sid]; var owed := Owed(h, recipients, p);
            var event := if s.user in recipients then EventFor(p, s.intents) else None;
            event == if sid in owed then Some(owed[sid]) else None
  {
    hide EventFor;
  }

  /** The same for any events owed. */
  lemma DispatchDelivers(h: HubState, owed: map<ID, Event>, schedule: ID -> Schedule, sid: ID)
    requires Inv(h) && OwedOk(h, owed) && sid in h.sessions
    ensures var h' := DispatchAll(h, owed, schedule);
            var s := h.sessions[sid];
            && sid in h.history && sid in h'.history && sid in h'.sessions
            && (s.client.Some? ==> s.client.value in h.conns && s.client.value in h'.conns)
            && if sid !in owed then
                 && h'.sessions[sid] == s && h'.history[sid] == h.history[sid]
                 && (s.client.Some? ==> h'.conns[s.client.value] == h.conns[s.client.value])
               else
                 && h'.history[sid].log == h.history[sid].log + [owed[sid]]
                 && h'.sessions[sid].sequence == s.sequence + 1
                 && |h'.sessions[sid].events| >= 1
                 && h'.sessions[sid].events[|h'.sessions[sid].events| - 1] == StoredEvent(s.sequence + 1, owed[sid])
                 && h'.sessions[sid].user == s.user && h'.sessions[sid].intents == s.intents
                 && (s.client.None? ==> h'.sessions[sid].client.None?)
                 && (s.client.Some? ==>
                       HandedOrLost(h.conns[s.client.value], h'.conns[s.client.value], h'.sessions[sid],
                                    s.client.value, StoredEvent(s.sequence + 1, owed[sid]), schedule(sid)))
  {
    hide Inv, DispatchAll, SessionOk, RevealsContent, HandedOrLost, OwedOk;
    DispatchAllInv(h, owed, schedule);
    SessionFacts(h, sid);
    DispatchAllAt(h, owed, schedule, sid);
    SessionFacts(DispatchAll(h, owed, schedule), sid);
    HandedAt(h, owed, schedule, sid);
    LastBuffered(h, sid);
    LastBuffered(DispatchAll(h, owed, schedule), sid);
    SameUser(h, owed, schedule, sid);
  }

  lemma SameUser(h: HubState, owed: map<ID, Event>, schedule: ID -> Schedule, sid: ID)
    requires sid in h.sessions
    ensures var s' := DispatchAll(h, owed, schedule).sessions[sid];
            s'.user == h.sessions[sid].user && s'.intents == h.sessions[sid].intents
  {
    hide Offer, AppendEvent;
  }

  lemma PruneKeepsSession(h: HubState, now: Time, sid: ID)
    requires sid in Prune(h, now).sessions
    ensures sid in h.sessions && Prune(h, now).sessions[sid] == h.sessions[sid]
  {
  }

  /** And connections that serve no session are left alone. */
  lemma PublishSparesOtherConnections(
    h: HubState, recipients: set<ID>, p: Publication, now: Time, schedule: ID -> Schedule, cid: ID)
    requires cid in h.conns && !Serves(Prune(h, now).sessions, h.conns[cid], cid)
    ensures var h' := Publish(h, recipients, p, now, schedule); cid in h'.conns && h'.conns[cid] == h.conns[cid]
  {
    hide Owed, DeliverTo, LogAppended, ExpiredSessions, Offer;
  }

  /** What one dispatch to all does to the connection of a session. */
  lemma HandedAt(h: HubState, owed: map<ID, Event>, schedule: ID -> Schedule, sid: ID)
    requires Inv(h) && sid in h.sessions
    ensures var h' := DispatchAll(h, owed, schedule); var s := h.sessions[sid];
            && sid in h'.sessions
            && (s.client.None? ==> h'.sessions[sid].client.None?)
            && (s.client.Some? ==>
                  && s.client.value in h.conns && s.client.value in h'.conns
                  && if sid !in owed then h'.conns[s.client.value] == h.conns[s.client.value]
                     else HandedOrLost(h.conns[s.client.value], h'.conns[s.client.value], h'.sessions[sid],
                                       s.client.value, StoredEvent(s.sequence + 1, owed[sid]), schedule(sid)))
  {
    hide ConnsOk, AllRedacted, WithinCaps, Indexed, SessionOk, Offer, AppendEvent, LogAppended, HandedOrLost;
    var s := h.sessions[sid];
    if s.client.Some? {
      var cid := s.client.value;
      var rest := owed - {sid};
      FedOwn(h, rest, sid, if sid in owed then owed[sid] else Resumed, cid, schedule);
      assert if sid in owed then rest[sid := owed[sid]] == owed else rest == owed;
      if sid in owed {
        ConnFacts(h, cid);
        OfferedOrLost(h.conns[cid], s, cid, StoredEvent(s.sequence + 1, owed[sid]), schedule(sid), h.bufferSize);
      }
    }
  }

  lemma OfferedOrLost(c: Conn, s: SessionState, cid: ID, stored: StoredEvent, e: Schedule, bufferSize: nat)
    requires c.Valid() && s.client == Some(cid) && stored.sequence == s.sequence + 1
    ensures HandedOrLost(c, Offer(c, Dispatch(stored), e).0, Deliver(s, Some(c), stored.event, e, bufferSize).0,
                         cid, stored, e)
  {
    OfferAnswers(c, Dispatch(stored), e);
    hide Offer, Accepts, AppendEvent, Dispatches;
  }

  lemma LastBuffered(h: HubState, sid: ID)
    requires Inv(h) && sid in h.sessions
    ensures sid in h.history && |h.history[sid].log| >= 1
    ensures var s, log := h.sessions[sid], h.history[sid].log;
            && s.sequence == |log| - 1 && |s.events| >= 1
            && s.events[|s.events| - 1] == StoredEvent(|log| - 1, log[|log| - 1])
  {
  }

  lemma DispatchAllAt(h: HubState, owed: map<ID, Event>, schedule: ID -> Schedule, sid: ID)
    requires sid in h.sessions && sid in h.history
    ensures sid in DispatchAll(h, owed, schedule).sessions && sid in DispatchAll(h, owed, schedule).history
    ensures sid !in owed ==> DispatchAll(h, owed, schedule).sessions[sid] == h.sessions[sid]
    ensures DispatchAll(h, owed, schedule).history[sid]
         == (if sid in owed then LogAppended(h.history[sid], owed[sid]) else h.history[sid])
    ensures DispatchAll(h, owed, schedule).bufferSize == h.bufferSize
  {
  }

  /** No session without MESSAGE_CONTENT is ever shown message text, live or replayed. */
  lemma ContentStaysHidden(bufferSize: nat, retention: Time, ops: seq<Op>, cid: ID, i: nat)
    requires bufferSize >= 1 && Possible(Init(bufferSize, retention), ops)
    requires var h := Run(Init(bufferSize, retention), ops);
             && cid in h.conns && i < |h.conns[cid].sent| && h.conns[cid].binding.Some?
             && h.conns[cid].binding.value.session in h.history
             && !HasIntent(h.history[h.conns[cid].binding.value.session].intents, INTENT_MESSAGE_CONTENT)
    ensures !RevealsContent(Run(Init(bufferSize, retention), ops).conns[cid].sent[i].event)
  {
    hide Possible, Run, Apply, HasIntent, RevealsContent, Dispatches;
    InitInv(bufferSize, retention);
    RunInv(Init(bufferSize, retention), ops);
    var h := Run(Init(bufferSize, retention), ops);
    ConnFacts(h, cid);
    RedactedAt(h, h.conns[cid].binding.value.session);
  }

  /** Nor does its replay buffer ever hold any, so a resume cannot reveal it either. */
  lemma BufferHidesContent(bufferSize: nat, retention: Time, ops: seq<Op>, sid: ID, i: nat)
    requires bufferSize >= 1 && Possible(Init(bufferSize, retention), ops)
    requires var h := Run(Init(bufferSize, retention), ops);
             sid in h.sessions && i < |h.sessions[sid].events| && !HasIntent(h.sessions[sid].intents, INTENT_MESSAGE_CONTENT)
    ensures !RevealsContent(Run(Init(bufferSize, retention), ops).sessions[sid].events[i].event)
  {
    hide Possible, Run, Apply, HasIntent, RevealsContent, Dispatches;
    InitInv(bufferSize, retention);
    RunInv(Init(bufferSize, retention), ops);
    var h := Run(Init(bufferSize, retention), ops);
    RedactedAt(h, sid);
    SessionFacts(h, sid);
  }

  lemma RedactedAt(h: HubState, sid: ID)
    requires Inv(h) && sid in h.history
    ensures Redacted(h.history[sid])
  {
  }

  // ---------- Retention ----------

  /**
    Pruning removes exactly the sessions that stayed detached for the retention period,
    never a connected one, and reports a user once exactly when the last session goes.
  */
  lemma PruneIsExact(h: HubState, now: Time, sid: ID, user: ID)
    requires Inv(h)
    ensures sid in Prune(h, now).sessions <==>
            sid in h.sessions && (h.sessions[sid].client.Some?
                                  || now - h.sessions[sid].disconnectedAt.value < h.retention)
    ensures Prune(h, now).gone[user] == h.gone[user] +
            if (exists k :: k in h.sessions && h.sessions[k].user == user)
               && !(exists k :: k in Prune(h, now).sessions && h.sessions[k].user == user) then 1 else 0
  {
    hide ConnsOk, ClientsOk, AllRedacted, WithinCaps, IsTail;
    var dead := ExpiredSessions(h, now);
    GoneAt(h.sessions, h.byUser, dead, user);
    assert sid in h.sessions ==> sid in h.history;
  }

  lemma GoneAt(sessions: map<ID, SessionState>, byUser: map<ID, set<ID>>, dead: set<ID>, user: ID)
    requires Indexed(sessions, byUser)
    ensures multiset(LosingAll(byUser, dead))[user] ==
            if (exists k :: k in sessions && sessions[k].user == user)
               && !(exists k :: k in sessions - dead && sessions[k].user == user) then 1 else 0
  {
    if user in byUser {
      var k :| k in byUser[user];
      assert k in sessions && sessions[k].user == user;
      if byUser[user] <= dead {
        assert !(exists k :: k in sessions - dead && sessions[k].user == user);
      } else {
        var j :| j in byUser[user] && j !in dead;
        assert j in sessions - dead && sessions[j].user == user;
      }
    } else {
      assert !(exists k :: k in sessions && sessions[k].user == user);
    }
  }

  /** Users are reported gone by pruning and by nothing else. */
  lemma OnlyPruningReports(h: HubState, op: Op)
    requires Inv(h) && Enabled(h, op)
    ensures Apply(h, op).gone ==
            match op
            case DoIdentify(_, _, _, _, now, _) => Prune(h, now).gone
            case DoResume(_, _, _, _, now, _) => Prune(h, now).gone
            case DoPublish(_, _, now, _) => Prune(h, now).gone
            case Sweep(now) => Prune(h, now).gone
            case _ => h.gone
  {
    hide RemoveAll, Inv, Offer, Replay, Owed, AppendEvent;
  }

  /** A detach by any connection other than the current one changes nothing. */
  lemma StaleDetachIsIgnored(h: HubState, sid: ID, cid: ID, now: Time)
    requires Inv(h) && Stale(h, cid)
    ensures Detach(h, sid, cid, now) == h
  {
    hide ConnsOk, AllRedacted, WithinCaps, Indexed, SessionOk;
  }

  // ---------- The tables ----------

  /**
    After any run the two indexes list the same sessions, with no user left without one; the limits on
    all sessions and on those of one user hold; and a session is detached since a known time or has a
    connection, never both.
  */
  lemma IndexesAgree(bufferSize: nat, retention: Time, ops: seq<Op>)
    requires bufferSize >= 1 && Possible(Init(bufferSize, retention), ops)
    ensures var h := Run(Init(bufferSize, retention), ops);
            && (forall u, sid :: (u in h.byUser && sid in h.byUser[u]) <==> (sid in h.sessions && h.sessions[sid].user == u))
            && (forall u | u in h.byUser :: h.byUser[u] != {} && |h.byUser[u]| <= 10)
            && |h.sessions| <= 10_000
            && forall sid | sid in h.sessions :: h.sessions[sid].client.None? <==> h.sessions[sid].disconnectedAt.Some?
  {
    hide Possible, Run, Apply, Inv;
    InitInv(bufferSize, retention);
    RunInv(Init(bufferSize, retention), ops);
    var h := Run(Init(bufferSize, retention), ops);
    InvTables(h);
    forall sid | sid in h.sessions
      ensures h.sessions[sid].client.None? <==> h.sessions[sid].disconnectedAt.Some?
    {
      ClientOrTime(h, sid);
    }
  }

  lemma InvTables(h: HubState)
    requires Inv(h)
    ensures Indexed(h.sessions, h.byUser) && WithinCaps(h.sessions, h.byUser)
  {
  }

  lemma ClientOrTime(h: HubState, sid: ID)
    requires Inv(h) && sid in h.sessions
    ensures h.sessions[sid].client.None? <==> h.sessions[sid].disconnectedAt.Some?
  {
    hide ConnsOk, ClientsOk, AllRedacted, IsTail, Indexed, WithinCaps;
    assert SessionOk(h.sessions[sid], h.history[sid], h.bufferSize);
  }
}
