/**
  One websocket connection as the hub sees it: the bounded, lossy send queue of
  `client` in internal/gateway/service.go.

  The write loop drains the queue and other goroutines may terminate the client at
  any time. What they do around one `enqueue` is its Schedule parameter, so every
  interleaving is some value of that parameter.
*/
module GatewayClient {
  import opened Common
  import opened GatewayProtocol

  datatype StoredEvent = StoredEvent(sequence: int, event: Event)

  datatype Frame = Hello | HeartbeatAck | Dispatch(stored: StoredEvent)

  /** The session a connection was given to, and the sequence its first dispatch must have. */
  datatype Binding = Binding(session: ID, start: nat)

  /**
    A connection with its history: `placed` holds every frame ever queued, of which the
    write loop has taken the first `taken`; `sent` holds the dispatches among them.
  */
  datatype Conn = Conn(
    capacity: nat, done: bool, placed: seq<Frame>, taken: nat, sent: seq<StoredEvent>, binding: Option<Binding>)
  {
    /** The frames still waiting for the write loop. */
    function Waiting(): int {
      |placed| - taken
    }

    ghost predicate Valid() {
      0 <= Waiting() <= capacity && sent == Dispatches(placed)
    }
  }

  /**
    The rest of the program during one enqueue: how many frames the write loop takes and
    whether someone terminates the client beforehand, which ready branch `select` picks,
    and the clock if the session is detached afterwards.
  */
  datatype Schedule = Schedule(drained: nat, killed: bool, sendBranch: bool, at: Time)

  function Interrupted(c: Conn, e: Schedule): Conn {
    c.(taken := if c.taken + e.drained <= |c.placed| then c.taken + e.drained else |c.placed|,
       done := c.done || e.killed)
  }

  function Placed(c: Conn, f: Frame): Conn {
    c.(placed := c.placed + [f], sent := if f.Dispatch? then c.sent + [f.stored] else c.sent)
  }

  /** enqueue: the connection afterwards and the answer. */
  function Offer(c: Conn, f: Frame, e: Schedule): (Conn, bool) {
    var mid := Interrupted(c, e);
    if mid.Waiting() < mid.capacity && (!mid.done || e.sendBranch) then (Placed(mid, f), true)
    else (mid.(done := true), false)
  }

  /** There is room once the write loop has drained, and a terminated client picks the send branch. */
  predicate Accepts(c: Conn, e: Schedule) {
    var waiting := if e.drained <= c.Waiting() then c.Waiting() - e.drained else 0;
    waiting < c.capacity && (c.done || e.killed ==> e.sendBranch)
  }

  /** A frame is queued exactly when the client accepts; a client that does not is terminated. */
  lemma OfferAnswers(c: Conn, f: Frame, e: Schedule)
    requires c.Valid()
    ensures Offer(c, f, e).0.Valid()
    ensures Offer(c, f, e).1 <==> Accepts(c, e)
    ensures Offer(c, f, e).0 == (if Accepts(c, e) then Placed(c, f) else c.(done := true)).(
                                 taken := Interrupted(c, e).taken, done := Offer(c, f, e).0.done)
    ensures Offer(c, f, e).0.done <==> c.done || e.killed || !Accepts(c, e)
    ensures !c.done && !e.killed && c.Waiting() < c.capacity ==> Offer(c, f, e).1 && !Offer(c, f, e).0.done
  {
    assert (c.placed + [f])[..|c.placed|] == c.placed;
  }

  /** The dispatches among some frames, in order. */
  function Dispatches(frames: seq<Frame>): seq<StoredEvent> {
    if frames == [] then []
    else
      var last := frames[|frames| - 1];
      Dispatches(frames[..|frames| - 1]) + (if last.Dispatch? then [last.stored] else [])
  }

  lemma DispatchesAppend(frames: seq<Frame>, f: Frame)
    ensures Dispatches(frames + [f]) == Dispatches(frames) + (if f.Dispatch? then [f.stored] else [])
  {
    assert (frames + [f])[..|frames|] == frames;
  }

  lemma {:induction false} DispatchesPrefix(frames: seq<Frame>, n: nat)
    requires n <= |frames|
    ensures Dispatches(frames[..n]) <= Dispatches(frames)
  {
    if n < |frames| {
      assert frames[..|frames| - 1][..n] == frames[..n];
      DispatchesPrefix(frames[..|frames| - 1], n);
    } else {
      assert frames[..n] == frames;
    }
  }

  /** Events start, start+1, ... of a log, each under its own sequence number, with none left out. */
  ghost predicate IsBlock(events: seq<StoredEvent>, log: seq<Event>, start: nat) {
    && start + |events| <= |log|
    && forall i | 0 <= i < |events| :: events[i] == StoredEvent(start + i, log[start + i])
  }

  class Client {
    const id: ID
    const capacity: nat
    var queue: seq<Frame>
    var done: bool
    ghost var placed: seq<Frame>
    ghost var sent: seq<StoredEvent>
    ghost var binding: Option<Binding>

    ghost predicate Valid()
      reads this
    {
      && |queue| <= |placed| && queue == placed[|placed| - |queue|..] && |queue| <= capacity
      && sent == Dispatches(placed)
    }

    ghost function View(): Conn
      reads this
      requires Valid()
    {
      Conn(capacity, done, placed, |placed| - |queue|, sent, binding)
    }

    constructor (id: ID, queueSize: nat)
      ensures Valid() && this.id == id
      ensures View() == Conn(queueSize, false, [], 0, [], None)
    {
      this.id, capacity := id, queueSize;
      queue, done, placed, sent, binding := [], false, [], [], None;
    }

    method Terminate()
      requires Valid()
      modifies this`done
      ensures Valid() && View() == old(View()).(done := true)
    {
      done := true;
    }

    /** ServeHTTP gives the connection to a session. */
    ghost method Bind(b: Binding)
      requires Valid()
      modifies this`binding
      ensures Valid() && View() == old(View()).(binding := Some(b))
    {
      binding := Some(b);
    }

    /** What the write loop and the other goroutines do before the hub's turn. */
    method Interrupt(e: Schedule)
      requires Valid()
      modifies this`queue, this`done
      ensures Valid() && View() == Interrupted(old(View()), e)
    {
      hide Dispatches;
      queue := queue[if e.drained <= |queue| then e.drained else |queue|..];
      if e.killed {
        Terminate();
      }
    }

    /** The send branch of select. */
    method Send(f: Frame)
      requires Valid() && |queue| < capacity
      modifies this`queue, this`placed, this`sent
      ensures Valid() && View() == Placed(old(View()), f)
    {
      hide Dispatches;
      DispatchesAppend(placed, f);
      queue, placed := queue + [f], placed + [f];
      sent := if f.Dispatch? then sent + [f.stored] else sent;
    }

    method Enqueue(f: Frame, e: Schedule) returns (ok: bool)
      requires Valid()
      modifies this`queue, this`done, this`placed, this`sent
      ensures Valid() && (View(), ok) == Offer(old(View()), f, e)
    {
      hide Interrupted, Placed, Dispatches;
      Interrupt(e);
      if |queue| < capacity && (!done || e.sendBranch) {
        Send(f);
        return true;
      }
      Terminate();
      return false;
    }
  }
}
