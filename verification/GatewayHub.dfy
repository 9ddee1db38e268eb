/**
  The hub itself: session objects shared by two indexes and updated in place, as in
  internal/gateway/hub.go. Every method is proved to take the step that GatewayHubSpec
  gives for the hub's view.
*/
module GatewayHub {
  import opened Common
  import opened GatewayProtocol
  import opened GatewayClient
  import opened GatewayHubSpec

  class Session {
    const id: ID
    const userID: ID
    const intents: Intents
    var sequence: int
    var events: seq<StoredEvent>
    var client: Client?
    var disconnectedAt: Option<Time>

    constructor (id: ID, userID: ID, intents: Intents, client: Client)
      ensures this.id == id && this.userID == userID && this.intents == intents
      ensures View() == SessionState(userID, intents, 0, [], Some(client.id), None)
      ensures this.client == client
    {
      this.id, this.userID, this.intents, this.client := id, userID, intents, client;
      sequence, events, disconnectedAt := 0, [], None;
    }

    ghost function View(): SessionState
      reads this
    {
      SessionState(userID, intents, sequence, events, if client == null then None else Some(client.id), disconnectedAt)
    }
  }

  /** Both indexes hold the same session objects, each under its own user. */
  ghost predicate IndexesShare(sessions: map<ID, Session>, byUser: map<ID, map<ID, Session>>) {
    && (forall sid | sid in sessions :: sessions[sid].id == sid)
    && (forall u, sid | u in byUser && sid in byUser[u] ::
          sid in sessions && byUser[u][sid] == sessions[sid] && sessions[sid].userID == u)
  }

  ghost function IndexView(byUser: map<ID, map<ID, Session>>): map<ID, set<ID>> {
    map u | u in byUser :: byUser[u].Keys
  }

  function Without(byUser: map<ID, map<ID, Session>>, user: ID, sid: ID): map<ID, map<ID, Session>>
    requires user in byUser
  {
    var inner := byUser[user] - {sid};
    if |inner| == 0 then byUser - {user} else byUser[user := inner]
  }

  lemma WithoutShares(sessions: map<ID, Session>, byUser: map<ID, map<ID, Session>>, user: ID, sid: ID)
    requires IndexesShare(sessions, byUser) && user in byUser && sid in sessions && sessions[sid].userID == user
    ensures IndexesShare(sessions - {sid}, Without(byUser, user, sid))
    ensures IndexView(Without(byUser, user, sid)) == Unindexed(IndexView(byUser), user, sid)
    ensures user !in Without(byUser, user, sid) <==> IndexView(byUser)[user] - {sid} == {}
  {
    var inner := byUser[user] - {sid};
    assert inner.Keys == byUser[user].Keys - {sid};
    assert |inner| == 0 <==> inner.Keys == {};
    var byUser' := Without(byUser, user, sid);
    assert forall u | u in byUser' && u != user :: byUser'[u] == byUser[u];
  }

  function Added(byUser: map<ID, map<ID, Session>>, s: Session): map<ID, map<ID, Session>> {
    var inner: map<ID, Session> := if s.userID in byUser then byUser[s.userID] else map[];
    byUser[s.userID := inner[s.id := s]]
  }

  lemma AddedShares(sessions: map<ID, Session>, byUser: map<ID, map<ID, Session>>, s: Session)
    requires IndexesShare(sessions, byUser) && s.id !in sessions
    ensures IndexesShare(sessions[s.id := s], Added(byUser, s))
    ensures IndexView(Added(byUser, s)) == Reindexed(IndexView(byUser), s.userID, s.id)
  {
    var byUser' := Added(byUser, s);
    var inner: map<ID, Session> := if s.userID in byUser then byUser[s.userID] else map[];
    assert inner.Keys == if s.userID in byUser then IndexView(byUser)[s.userID] else {};
    assert byUser'[s.userID].Keys == inner.Keys + {s.id};
    assert IndexView(byUser').Keys == Reindexed(IndexView(byUser), s.userID, s.id).Keys;
    assert forall u | u in byUser && u != s.userID :: byUser'[u] == byUser[u];
  }

  /** What is owed to the sessions already served. */
  function OwedAmong(owed: map<ID, Event>, done: set<ID>): map<ID, Event> {
    map sid | sid in owed && sid in done :: owed[sid]
  }

  lemma OwedAmongStep(owed: map<ID, Event>, done: set<ID>, sid: ID)
    ensures OwedAmong(owed, done + {sid})
         == if sid in owed then OwedAmong(owed, done)[sid := owed[sid]] else OwedAmong(owed, done)
  {
  }

  ghost function UserSessionIDs(h: HubState, user: ID): set<ID> {
    set sid | sid in h.sessions && h.sessions[sid].user == user
  }

  lemma UserInIndex(h: HubState, byUser: map<ID, map<ID, Session>>, userID: ID)
    requires Indexed(h.sessions, h.byUser) && IndexView(byUser) == h.byUser
    ensures userID !in byUser ==> UserSessionIDs(h, userID) == {}
    ensures userID in byUser ==> byUser[userID].Keys == UserSessionIDs(h, userID)
  {
    if userID in byUser {
      assert IndexView(byUser)[userID] == byUser[userID].Keys;
    }
  }

  lemma UserInObjects(sessions: map<ID, Session>, byUser: map<ID, map<ID, Session>>, userID: ID)
    requires IndexesShare(sessions, byUser)
    ensures userID in byUser ==> forall sid | sid in byUser[userID] ::
              && sid in sessions && byUser[userID][sid] == sessions[sid]
              && sessions[sid].id == sid && sessions[sid].userID == userID
  {
  }

  class Hub {
    const bufferSize: nat
    const retention: Time
    var sessions: map<ID, Session>
    var sessionsByUser: map<ID, map<ID, Session>>
    /** Every connection accepted so far, every session's full log, and the users reported gone. */
    ghost var clients: map<ID, Client>
    ghost var history: map<ID, History>
    ghost var gone: multiset<ID>

    ghost predicate ClientsValid()
      reads this`clients, clients.Values
    {
      forall c | c in clients :: clients[c].id == c && clients[c].Valid()
    }

    ghost predicate Attached(s: Session)
      reads this`clients, s
    {
      s.client != null ==> s.client.id in clients && clients[s.client.id] == s.client
    }

    /** Every connection in use is accounted for. */
    ghost predicate Shape()
      reads this, sessions.Values, clients.Values
    {
      && IndexesShare(sessions, sessionsByUser) && ClientsValid()
      && (forall sid | sid in sessions :: Attached(sessions[sid]))
      && sessions.Keys <= history.Keys
    }

    ghost function View(): HubState
      reads this, sessions.Values, clients.Values
      requires Shape()
    {
      HubState(
        bufferSize, retention,
        map sid | sid in sessions :: sessions[sid].View(),
        IndexView(sessionsByUser),
        map c | c in clients :: clients[c].View(),
        history, gone)
    }

    ghost predicate Valid()
      reads this, sessions.Values, clients.Values
    {
      Shape() && Inv(View())
    }

    constructor (retention: Time, bufferSize: nat)
      requires bufferSize >= 1
      ensures Valid() && View() == HubState(bufferSize, retention, map[], map[], map[], map[], multiset{})
    {
      this.retention, this.bufferSize := retention, bufferSize;
      sessions, sessionsByUser, clients, history, gone := map[], map[], map[], map[], multiset{};
    }

    /** ServeHTTP up to HELLO: a fresh connection with a queue of bufferSize + 8. */
    method Accept(cid: ID, e: Schedule) returns (connection: Client)
      requires Shape() && cid !in clients
      modifies this`clients
      ensures Shape() && fresh(connection) && clients == old(clients)[cid := connection]
      ensures View() == old(View()).(
                conns := old(View()).conns[cid := Offer(Conn(bufferSize + 8, false, [], 0, [], None), Hello, e).0])
    {
      hide Dispatches, Offer, Conn.Valid, Client.Valid, Client.View, Session.View, IndexesShare, IndexView;
      ghost var before := View();
      connection := new Client(cid, bufferSize + 8);
      var _ := connection.Enqueue(Hello, e);
      clients := clients[cid := connection];
      ViewAccepted(before, connection);
    }

    /** The view when nothing changed but a connection was added. */
    lemma ViewAccepted(before: HubState, c: Client)
      requires Shape() && c.id in clients && clients[c.id] == c && c.id !in before.conns
      requires sessions.Keys == before.sessions.Keys && clients.Keys == before.conns.Keys + {c.id}
      requires forall k | k in sessions :: sessions[k].View() == before.sessions[k]
      requires forall k | k in clients && k != c.id :: clients[k].View() == before.conns[k]
      ensures View().sessions == before.sessions
      ensures View().conns == before.conns[c.id := c.View()]
    {
      hide Client.Valid, Client.View, Session.View, IndexesShare, IndexView;
    }

    method DetachLocked(s: Session, connection: Client, at: Time)
      modifies s`client, s`disconnectedAt
      ensures s.View() == (if old(s.client) == connection then Detached(old(s.View()), at) else old(s.View()))
      ensures s.client == (if old(s.client) == connection then null else old(s.client))
    {
      if s.client != connection {
        return;
      }
      s.client := null;
      s.disconnectedAt := Some(at);
    }

    method AppendEventLocked(s: Session, event: StoredEvent)
      modifies s`events
      ensures s.events == AppendEvent(old(s.events), event, bufferSize)
    {
      s.events := s.events + [event];
      if |s.events| > bufferSize {
        s.events := s.events[|s.events| - bufferSize..];
      }
    }

    /** The session and the connection in dispatchLocked. */
    method DeliverLocked(s: Session, event: Event, e: Schedule) returns (ok: bool)
      requires s.client != null ==> s.client.Valid()
      modifies s, s.client
      ensures old(s.client) == null ==> (s.View(), None) == Deliver(old(s.View()), None, event, e, bufferSize)
      ensures old(s.client) != null ==>
                && old(s.client).Valid()
                && (s.View(), Some(old(s.client).View()))
                   == Deliver(old(s.View()), Some(old(s.client.View())), event, e, bufferSize)
      ensures old(s.View()).client == if old(s.client) == null then None else Some(old(s.client).id)
      ensures s.client == null || s.client == old(s.client)
      ensures ok <==> s.client == old(s.client)
    {
      hide Dispatches, Offer, AppendEvent, Client.Valid, Client.View;
      s.sequence := s.sequence + 1;
      var stored := StoredEvent(s.sequence, event);
      AppendEventLocked(s, stored);
      ok := true;
      if s.client != null {
        ok := s.client.Enqueue(Dispatch(stored), e);
        if !ok {
          DetachLocked(s, s.client, e.at);
        }
      }
    }

    /** The view when one session object and its connection differ from before. */
    lemma ViewUpdated(before: HubState, s: Session, c: Client?)
      requires Shape() && s.id in sessions && sessions[s.id] == s
      requires before.sessions.Keys == sessions.Keys && before.conns.Keys == clients.Keys
      requires c != null ==> c.id in clients && clients[c.id] == c
      requires forall k | k in sessions && k != s.id :: sessions[k].View() == before.sessions[k]
      requires forall k | k in clients && clients[k] != c :: clients[k].View() == before.conns[k]
      ensures View().sessions == before.sessions[s.id := s.View()]
      ensures View().conns == if c == null then before.conns else before.conns[c.id := c.View()]
    {
      hide Client.Valid, Client.View, Session.View;
    }

    method DispatchLocked(s: Session, event: Event, e: Schedule) returns (ok: bool)
      requires Shape() && s.id in sessions && sessions[s.id] == s
      modifies s, s.client, this`history
      ensures Shape() && s.id in old(View()).sessions && s.id in old(View()).history
      ensures View() == DispatchOne(old(View()), s.id, event, e)
      ensures s.client == null || s.client == old(s.client)
      ensures ok <==> s.client == old(s.client)
    {
      hide Conn.Valid, Deliver, LogAppended, Dispatches, Client.Valid, Client.View, Session.View, IndexesShare, IndexView;
      ghost var before, connection := View(), s.client;
      OthersDiffer(s);
      ok := DeliverLocked(s, event, e);
      history := history[s.id := LogAppended(history[s.id], event)];
      ViewUpdated(before, s, connection);
    }

    method RemoveLocked(s: Session)
      requires Shape() && s.id in sessions && sessions[s.id] == s
      requires Indexed(View().sessions, View().byUser)
      modifies this`sessions, this`sessionsByUser, this`gone
      ensures Shape() && sessions == old(sessions) - {s.id}
      ensures s.id in old(View()).sessions && s.userID in old(View()).byUser
      ensures View() == RemoveOne(old(View()), s.id)
    {
      hide Client.Valid, Client.View, Session.View, IndexesShare, IndexView, Unindexed, Indexed, Without;
      ghost var before := View();
      UserIndexed(s);
      WithoutShares(sessions, sessionsByUser, s.userID, s.id);
      sessions := sessions - {s.id};
      sessionsByUser := Without(sessionsByUser, s.userID, s.id);
      if s.userID !in sessionsByUser {
        gone := gone + multiset{s.userID};
      }
      ViewShrunk(before, s.id);
    }

    /** The view when sessions were only removed. */
    lemma ViewShrunk(before: HubState, sid: ID)
      requires Shape() && sessions.Keys == before.sessions.Keys - {sid} && before.conns.Keys == clients.Keys
      requires forall k | k in sessions :: sessions[k].View() == before.sessions[k]
      requires forall k | k in clients :: clients[k].View() == before.conns[k]
      ensures View().sessions == before.sessions - {sid} && View().conns == before.conns
    {
      hide Client.Valid, Client.View, Session.View, IndexesShare;
    }

    lemma UserIndexed(s: Session)
      requires Shape() && s.id in sessions && sessions[s.id] == s
      requires Indexed(View().sessions, View().byUser)
      ensures s.userID in sessionsByUser
      ensures s.id in View().sessions && View().sessions[s.id].user == s.userID && s.userID in View().byUser
      ensures View().byUser == IndexView(sessionsByUser)
    {
      assert View().sessions[s.id].user == s.userID;
    }

    method PruneLocked(now: Time)
      requires Valid()
      modifies this`sessions, this`sessionsByUser, this`gone
      ensures Valid() && sessions.Keys <= old(sessions.Keys)
      ensures forall sid | sid in sessions :: sessions[sid] == old(sessions)[sid]
      ensures View() == Prune(old(View()), now)
    {
      hide Inv, RemoveOne, RemoveAll, Client.Valid, Client.View, IndexesShare, IndexView, Indexed;
      ghost var before := View();
      ghost var dead: set<ID> := {};
      var pending := sessions.Keys;
      IndexedPart(before);
      RemoveNone(before);
      while pending != {}
        invariant Shape() && sessions == old(sessions) - dead
        invariant pending <= old(sessions.Keys) && dead <= old(sessions.Keys) && pending !! dead
        invariant View() == RemoveAll(before, dead)
        invariant forall sid | sid in old(sessions) && sid !in pending :: sid in dead <==> sid in ExpiredSessions(before, now)
        decreases pending
      {
        var sid :| sid in pending;
        var s := sessions[sid];
        UnderItsID(sid);
        pending := pending - {sid};
        RemoveAllInv(before, dead);
        IndexedPart(RemoveAll(before, dead));
        if s.disconnectedAt.Some? && now - s.disconnectedAt.value >= retention {
          RemoveAllStep(before, dead, sid);
          RemoveLocked(s);
          dead := dead + {sid};
        }
      }
      RemoveAllInv(before, dead);
      assert dead == ExpiredSessions(before, now);
    }

    lemma OthersDiffer(s: Session)
      requires Shape() && s.id in sessions && sessions[s.id] == s
      ensures forall k | k in sessions && k != s.id :: sessions[k] != s
    {
    }

    lemma UnderItsID(sid: ID)
      requires Shape() && sid in sessions
      ensures sessions[sid].id == sid
    {
    }

    lemma IndexedPart(h: HubState)
      requires Inv(h)
      ensures Indexed(h.sessions, h.byUser)
    {
    }

    /** identify: a session for the fresh id, unless that many exist already. */
    method Identify(sid: ID, userID: ID, intents: Intents, connection: Client, now: Time, e: Schedule) returns (ok: bool)
      requires Valid() && sid !in history
      requires connection.id in clients && clients[connection.id] == connection && connection.binding.None?
      modifies this`sessions, this`sessionsByUser, this`gone, this`history, connection
      ensures Valid() && connection.id in old(View()).conns
      ensures (View(), ok) == GatewayHubSpec.Identify(old(View()), sid, userID, intents, connection.id, now, e)
    {
      hide Inv, RemoveAll, Opened, Client.Valid, Client.View, Session.View, IndexesShare, IndexView;
      PruneLocked(now);
      ghost var pruned := View();
      UserSessions(userID);
      ConnectionView(connection);
      if |sessions| >= MAX_SESSIONS
         || (userID in sessionsByUser && |sessionsByUser[userID]| >= MAX_SESSIONS_PER_USER) {
        return false;
      }
      OpenedInv(pruned, sid, userID, intents, connection.id, e);
      OpenLocked(sid, userID, intents, connection, e);
      ok := true;
    }

    lemma UserSessions(userID: ID)
      requires Shape()
      ensures |View().sessions| == |sessions|
      ensures userID in View().byUser <==> userID in sessionsByUser
      ensures userID in sessionsByUser ==> |View().byUser[userID]| == |sessionsByUser[userID]|
    {
      hide Client.Valid, Client.View, Session.View;
      assert View().sessions.Keys == sessions.Keys;
    }

    lemma ConnectionView(connection: Client)
      requires Shape() && connection.id in clients && clients[connection.id] == connection
      ensures connection.id in View().conns && connection.Valid()
      ensures View().conns[connection.id] == connection.View()
      ensures connection.View().binding == connection.binding
    {
      hide Session.View, IndexesShare;
    }

    /** The new session object, given READY. */
    method NewSession(sid: ID, userID: ID, intents: Intents, connection: Client, e: Schedule) returns (s: Session)
      requires connection.Valid()
      modifies connection
      ensures fresh(s) && s.id == sid && s.userID == userID && connection.Valid()
      ensures s.client == null || s.client == connection
      ensures var first := StoredEvent(0, Ready(sid));
              var (c, ok) := Offer(old(connection.View()).(binding := Some(Binding(sid, 0))), Dispatch(first), e);
              var state := SessionState(userID, intents, 0, AppendEvent([], first, bufferSize), Some(connection.id), None);
              connection.View() == c && s.View() == if ok then state else Detached(state, e.at)
    {
      hide Dispatches, Offer, AppendEvent, Client.Valid, Client.View;
      s := new Session(sid, userID, intents, connection);
      connection.Bind(Binding(sid, 0));
      var first := StoredEvent(0, Ready(sid));
      AppendEventLocked(s, first);
      var accepted := connection.Enqueue(Dispatch(first), e);
      if !accepted {
        DetachLocked(s, connection, e.at);
      }
    }

    method OpenLocked(sid: ID, userID: ID, intents: Intents, connection: Client, e: Schedule)
      requires Shape() && sid !in sessions && sid !in history
      requires connection.id in clients && clients[connection.id] == connection
      modifies this`sessions, this`sessionsByUser, this`history, connection
      ensures Shape() && connection.id in old(View()).conns
      ensures View() == Opened(old(View()), sid, userID, intents, connection.id, e)
    {
      hide Conn.Valid, Offer, AppendEvent, Detached, Dispatches, Client.Valid, Client.View, Session.View, IndexesShare, IndexView, Reindexed, Added;
      ghost var before := View();
      ConnectionView(connection);
      var s := NewSession(sid, userID, intents, connection, e);
      AddedShares(sessions, sessionsByUser, s);
      sessions := sessions[sid := s];
      sessionsByUser := Added(sessionsByUser, s);
      history := history[sid := History(userID, intents, [Ready(sid)])];
      ViewExtended(before, s, connection);
    }

    /** The view when one session object was added or changed, with its connection. */
    lemma ViewExtended(before: HubState, s: Session, c: Client)
      requires Shape() && s.id in sessions && sessions[s.id] == s
      requires sessions.Keys == before.sessions.Keys + {s.id} && before.conns.Keys == clients.Keys
      requires c.id in clients && clients[c.id] == c
      requires forall k | k in sessions && k != s.id :: sessions[k].View() == before.sessions[k]
      requires forall k | k in clients && clients[k] != c :: clients[k].View() == before.conns[k]
      ensures View().sessions == before.sessions[s.id := s.View()]
      ensures View().conns == before.conns[c.id := c.View()]
    {
      hide Client.Valid, Client.View, Session.View;
    }

    method Detach(sid: ID, connection: Client, now: Time)
      requires Valid() && connection.id in clients && clients[connection.id] == connection
      modifies sessions.Values
      ensures Valid() && View() == GatewayHubSpec.Detach(old(View()), sid, connection.id, now)
    {
      hide Inv, Client.Valid, Client.View, IndexesShare, IndexView;
      ghost var before := View();
      DetachInv(before, sid, connection.id, now);
      if sid in sessions {
        UnderItsID(sid);
        OthersDiffer(sessions[sid]);
        DetachLocked(sessions[sid], connection, now);
        ViewUpdated(before, sessions[sid], null);
      }
    }

    /** The replay loop of resume. */
    method ReplayLocked(events: seq<StoredEvent>, after: int, connection: Client, schedule: nat -> Schedule)
      returns (ok: bool, at: Time)
      requires connection.Valid()
      modifies connection
      ensures connection.Valid()
      ensures (connection.View(), ok, at) == Replay(old(connection.View()), events, after, 0, schedule)
    {
      hide Offer, Client.Valid, Client.View;
      ghost var start := connection.View();
      ok, at := true, 0;
      var i := 0;
      while i < |events|
        invariant i <= |events| && connection.Valid()
        invariant Replay(start, events, after, 0, schedule) == Replay(connection.View(), events, after, i, schedule)
      {
        if events[i].sequence > after {
          ok := connection.Enqueue(Dispatch(events[i]), schedule(i));
          if !ok {
            at := schedule(i).at;
            return;
          }
        }
        i := i + 1;
      }
    }

    /** resume up to the end of the replay: the session changes hands. */
    method TakeOver(s: Session, after: nat, connection: Client, schedule: nat -> Schedule) returns (ok: bool)
      requires connection.Valid() && (s.client != null ==> s.client.Valid())
      requires s.client != connection
      modifies s, s.client, connection
      ensures connection.Valid()
      ensures old(s.client) != null ==> old(s.client).Valid() && old(s.client).View() == old(s.client.View()).(done := true)
      ensures ok ==> s.client == connection
      ensures !ok ==> s.client == null
      ensures var state := old(s.View()).(client := Some(connection.id), disconnectedAt := None);
              var (c, ok', at) := Replay(old(connection.View()).(binding := Some(Binding(s.id, after + 1))),
                                         state.events, after, 0, schedule);
              connection.View() == c && ok == ok' && s.View() == if ok then state else Detached(state, at)
    {
      hide Replay, Client.Valid, Client.View;
      if s.client != null && s.client != connection {
        s.client.Terminate();
      }
      s.client := connection;
      s.disconnectedAt := None;
      connection.Bind(Binding(s.id, after + 1));
      var at;
      ok, at := ReplayLocked(s.events, after, connection, schedule);
      if !ok {
        DetachLocked(s, connection, at);
      }
    }

    /** The view when a session moved from one connection to another. */
    lemma ViewMoved(before: HubState, s: Session, previous: Client?, c: Client)
      requires Shape() && s.id in sessions && sessions[s.id] == s
      requires sessions.Keys == before.sessions.Keys && before.conns.Keys == clients.Keys
      requires c.id in clients && clients[c.id] == c && previous != c
      requires previous != null ==>
        && previous.id in clients && clients[previous.id] == previous
        && previous.View() == before.conns[previous.id].(done := true)
      requires forall k | k in sessions && k != s.id :: sessions[k].View() == before.sessions[k]
      requires forall k | k in clients && clients[k] != c && clients[k] != previous :: clients[k].View() == before.conns[k]
      ensures View().sessions == before.sessions[s.id := s.View()]
      ensures View().conns
           == Superseded(before.conns, if previous == null then None else Some(previous.id), c.id)[c.id := c.View()]
    {
      hide Client.Valid, Client.View, Session.View;
    }

    method ReplayedLocked(s: Session, after: nat, connection: Client, schedule: nat -> Schedule) returns (ok: bool)
      requires Shape() && s.id in sessions && sessions[s.id] == s && s.client != connection
      requires connection.id in clients && clients[connection.id] == connection
      modifies s, s.client, connection
      ensures Shape() && s.id in old(View()).sessions && connection.id in old(View()).conns
      ensures (View(), ok) == Replayed(old(View()), s.id, after, connection.id, schedule)
      ensures ok ==> s.client == connection
    {
      hide Replay, Conn.Valid, Client.Valid, Client.View, IndexesShare, IndexView;
      ghost var before, previous := View(), s.client;
      ConnectionView(connection);
      OthersDiffer(s);
      ok := TakeOver(s, after, connection, schedule);
      ViewMoved(before, s, previous, connection);
    }

    lemma NotItsOwn(s: Session, connection: Client)
      requires Valid() && s.id in sessions && sessions[s.id] == s
      requires connection.id in clients && clients[connection.id] == connection && connection.binding.None?
      ensures s.client != connection
    {
      hide Conn.Valid, IndexesShare, IndexView, Indexed, WithinCaps, SessionsOk, ConnsOk, AllRedacted;
      assert View().sessions[s.id] == s.View();
      assert View().conns[connection.id] == connection.View();
    }

    /** The rest of resume once its checks have passed. */
    method ResumptionLocked(s: Session, after: nat, connection: Client, schedule: nat -> Schedule) returns (ok: bool)
      requires Valid() && s.id in sessions && sessions[s.id] == s
      requires connection.id in clients && clients[connection.id] == connection && connection.binding.None?
      requires Resumable(View(), s.userID, s.id, after) && s.id in View().history
      modifies s, s.client, connection, this`history
      ensures Shape() && s.id in old(View()).sessions && s.id in old(View()).history && connection.id in old(View()).conns
      ensures (View(), ok) == Resumption(old(View()), s.id, after, connection.id, schedule)
    {
      hide Inv, Replayed, DispatchOne, Conn.Valid, Dispatches, Client.Valid, Client.View, IndexesShare, IndexView;
      ConnectionView(connection);
      NotItsOwn(s, connection);
      var last := schedule(|s.events|);
      ok := ReplayedLocked(s, after, connection, schedule);
      if ok {
        ok := DispatchLocked(s, Resumed, last);
      }
    }

    method Resume(userID: ID, sid: ID, after: int, connection: Client, now: Time, schedule: nat -> Schedule)
      returns (ok: bool)
      requires Valid()
      requires connection.id in clients && clients[connection.id] == connection && connection.binding.None?
      modifies this`sessions, this`sessionsByUser, this`gone, this`history, sessions.Values, clients.Values
      ensures Valid() && connection.id in old(View()).conns && old(View()).sessions.Keys <= old(View()).history.Keys
      ensures (View(), ok) == GatewayHubSpec.Resume(old(View()), userID, sid, after, connection.id, now, schedule)
    {
      hide Inv, RemoveAll, Resumption, Conn.Valid, Client.Valid, Client.View, IndexesShare, IndexView;
      PruneLocked(now);
      ghost var pruned := View();
      ConnectionView(connection);
      if sid !in sessions {
        return false;
      }
      UnderItsID(sid);
      var s := sessions[sid];
      if s.userID != userID || after < 0 || after > s.sequence {
        return false;
      }
      if |s.events| > 0 && after < s.events[0].sequence - 1 {
        return false;
      }
      ResumptionInv(pruned, sid, after, connection.id, schedule);
      ok := ResumptionLocked(s, after, connection, schedule);
    }

    /** A publication to some users is under way: exactly the done sessions have been served. */
    ghost predicate Served(h: HubState, users: set<ID>, p: Publication, done: set<ID>, schedule: ID -> Schedule)
      reads this, sessions.Values, clients.Values
    {
      && Shape() && Inv(h) && OwedOk(h, Owed(h, users, p))
      && View() == DispatchAll(h, OwedAmong(Owed(h, users, p), done), schedule)
      && sessions.Keys == h.sessions.Keys
      && IndexView(sessionsByUser) == h.byUser
      && forall sid | sid in sessions ::
           sessions[sid].userID == h.sessions[sid].user && sessions[sid].intents == h.sessions[sid].intents
    }

    lemma InvPieces(h: HubState)
      requires Inv(h)
      ensures ClientsOk(h.sessions, h.conns, h.history) && Indexed(h.sessions, h.byUser)
      ensures h.sessions.Keys <= h.history.Keys
    {
    }

    lemma ServedStart(h: HubState, users: set<ID>, p: Publication, schedule: ID -> Schedule)
      requires Valid() && h == View() && WellFormedPublication(p)
      ensures Served(h, users, p, {}, schedule)
    {
      hide Inv, DispatchAll, Owed, EventFor, Client.Valid, Client.View, IndexesShare, IndexView;
      OwedIsOk(h, users, p);
      assert OwedAmong(Owed(h, users, p), {}) == map[];
      DispatchNone(h, schedule);
    }

    lemma ServedAll(h: HubState, users: set<ID>, p: Publication, done: set<ID>, schedule: ID -> Schedule)
      requires Served(h, users, p, done, schedule)
      requires forall sid | sid in h.sessions && h.sessions[sid].user in users :: sid in done
      ensures Valid() && View() == DispatchAll(h, Owed(h, users, p), schedule)
    {
      hide Inv, DispatchAll, EventFor, Client.Valid, Client.View, IndexesShare, IndexView;
      assert OwedAmong(Owed(h, users, p), done) == Owed(h, users, p);
      DispatchAllInv(h, Owed(h, users, p), schedule);
    }

    /** The body of the innermost loop of every publish method. */
    method PublishToSession(s: Session, p: Publication, schedule: ID -> Schedule,
                            ghost h: HubState, ghost users: set<ID>, ghost done: set<ID>)
      requires Served(h, users, p, done, schedule)
      requires s.id in sessions && sessions[s.id] == s && s.id !in done && s.userID in users
      modifies s, s.client, this`history
      ensures Served(h, users, p, done + {s.id}, schedule)
    {
      hide Inv, DispatchAll, DispatchOne, EventFor, Client.Valid, Client.View, Session.View, IndexView, RevealsContent;
      ghost var owed := Owed(h, users, p);
      var event := EventFor(p, s.intents);
      OwedAmongStep(owed, done, s.id);
      InvPieces(h);
      if event.Some? {
        DispatchAllStep(h, OwedAmong(owed, done), s.id, event.value, schedule);
        var _ := DispatchLocked(s, event.value, schedule(s.id));
      }
    }

    lemma UserIndexIs(h: HubState, users: set<ID>, p: Publication, done: set<ID>, schedule: ID -> Schedule, userID: ID)
      requires Served(h, users, p, done, schedule)
      ensures userID !in sessionsByUser ==> UserSessionIDs(h, userID) == {}
      ensures userID in sessionsByUser ==> sessionsByUser[userID].Keys == UserSessionIDs(h, userID)
      ensures userID in sessionsByUser ==>
        forall sid | sid in sessionsByUser[userID] ::
          && sid in sessions && sessionsByUser[userID][sid] == sessions[sid]
          && sessions[sid].id == sid && sessions[sid].userID == userID
      ensures forall sid | sid in sessions :: Attached(sessions[sid])
    {
      hide Inv, DispatchAll, Owed, OwedAmong, OwedOk, View, Attached, IndexesShare, IndexView, Indexed, UserSessionIDs;
      InvPieces(h);
      UserInIndex(h, sessionsByUser, userID);
      UserInObjects(sessions, sessionsByUser, userID);
    }

    /** One recipient's sessions, in any order. */
    method PublishToUser(userID: ID, p: Publication, schedule: ID -> Schedule,
                         ghost h: HubState, ghost users: set<ID>, ghost done: set<ID>)
      requires Served(h, users, p, done, schedule)
      requires userID in users && UserSessionIDs(h, userID) !! done
      modifies sessions.Values, clients.Values, this`history
      ensures Served(h, users, p, done + UserSessionIDs(h, userID), schedule)
    {
      hide Served, UserSessionIDs, Owed, Shape;
      UserIndexIs(h, users, p, done, schedule, userID);
      var pending: set<ID> := if userID in sessionsByUser then sessionsByUser[userID].Keys else {};
      ghost var sent: set<ID> := {};
      assert done + {} == done;
      while pending != {}
        invariant pending + sent == UserSessionIDs(h, userID) && pending !! sent
        invariant Served(h, users, p, done + sent, schedule)
        decreases pending
      {
        var sid :| sid in pending;
        UserIndexIs(h, users, p, done + sent, schedule, userID);
        PublishToSession(sessionsByUser[userID][sid], p, schedule, h, users, done + sent);
        assert done + sent + {sid} == done + (sent + {sid});
        pending, sent := pending - {sid}, sent + {sid};
      }
      assert sent == UserSessionIDs(h, userID);
    }

    /** The publish methods: every session of every distinct recipient, once. */
    method Publish(recipients: seq<ID>, p: Publication, now: Time, schedule: ID -> Schedule)
      requires Valid() && WellFormedPublication(p)
      modifies this`sessions, this`sessionsByUser, this`gone, this`history, sessions.Values, clients.Values
      ensures Valid()
      ensures View() == GatewayHubSpec.Publish(old(View()), SetOf(recipients), p, now, schedule)
    {
      hide Served, Inv, Shape, DispatchAll, Owed, RemoveAll;
      PruneLocked(now);
      ghost var h := View();
      ghost var users := SetOf(recipients);
      ServedStart(h, users, p, schedule);
      var seen: set<ID> := {};
      ghost var done: set<ID> := {};
      ghost var live := sessions;
      var i := 0;
      while i < |recipients|
        invariant i <= |recipients| && sessions == live && clients == old(clients)
        invariant seen == SetOf(recipients[..i])
        invariant done == set sid | sid in h.sessions && h.sessions[sid].user in seen
        invariant Served(h, users, p, done, schedule)
      {
        var userID := recipients[i];
        if userID !in seen {
          PublishToUser(userID, p, schedule, h, users, done);
          done := done + UserSessionIDs(h, userID);
        }
        seen := seen + {userID};
        i := i + 1;
      }
      assert recipients[..i] == recipients;
      ServedAll(h, users, p, done, schedule);
    }
  }
}
