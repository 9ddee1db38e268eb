/**
  Keyset paging of the messages of a channel: ListMessages of internal/chat/service.go with its
  cursors, and the query of internal/chat/postgres.go that it pages with.
*/
module Paging {
  import opened Common

  /** What orders messages: the creation time, then the ID, each as a number. */
  datatype Key = Key(time: nat, id: nat)

  predicate Less(a: Key, b: Key) {
    a.time < b.time || (a.time == b.time && a.id < b.id)
  }

  // ---------- Cursors ----------

  datatype Kind = Search | Guilds | Messages | Members | Threads | Directs | Channels

  datatype Cursor = Cursor(kind: Kind, time: nat, position: int, id: nat)

  /** What a cursor string holds: nothing, base64 and JSON of a cursor, or neither. */
  datatype Wire = Empty | Encoded(cursor: Cursor) | Garbage

  datatype Error = InvalidCursor | InvalidLimit | NotFound

  /** uuid.Nil, and the zero time. */
  const NIL := 0
  const ZERO := 0

  function DecodeCursor(value: Wire, kind: Kind): Result<Option<Cursor>, Error> {
    match value
    case Empty => Ok(None)
    case Garbage => Err(InvalidCursor)
    case Encoded(cursor) =>
      if cursor.kind != kind || cursor.id == NIL then Err(InvalidCursor)
      else if kind != Channels && cursor.time == ZERO then Err(InvalidCursor)
      else if kind == Channels && cursor.position < 0 then Err(InvalidCursor)
      else Ok(Some(cursor))
  }

  // ---------- The query ----------

  /** The messages of the channel at one moment. */
  type Table = set<Key>

  /** Clock readings are not the zero time and UUIDs not the nil one. */
  predicate ValidTable(table: Table) {
    forall k | k in table :: k.time != ZERO && k.id != NIL
  }

  predicate Greatest(keys: set<Key>, k: Key) {
    k in keys && forall j | j in keys && j != k :: Less(j, k)
  }

  lemma {:induction false} HasGreatest(keys: set<Key>)
    requires keys != {}
    ensures exists k :: Greatest(keys, k)
    decreases keys
  {
    var k :| k in keys;
    var rest := keys - {k};
    assert keys == rest + {k};
    if rest == {} {
      assert Greatest(keys, k);
    } else {
      HasGreatest(rest);
      var g :| Greatest(rest, g);
      assert Greatest(keys, if Less(g, k) then k else g);
    }
  }

  /** ORDER BY created_at DESC, id DESC */
  ghost function Descending(keys: set<Key>): seq<Key>
    decreases keys
  {
    if keys == {} then []
    else
      HasGreatest(keys);
      var k :| Greatest(keys, k);
      [k] + Descending(keys - {k})
  }

  ghost predicate StrictlyDescending(items: seq<Key>) {
    forall i, j | 0 <= i < j < |items| :: Less(items[j], items[i])
  }

  lemma Joined(a: seq<Key>, b: seq<Key>, last: Key)
    requires StrictlyDescending(a) && StrictlyDescending(b)
    requires |a| > 0 && a[|a| - 1] == last && forall k | k in b :: Less(k, last)
    ensures StrictlyDescending(a + b)
  {
    forall i, j | 0 <= i < j < |a + b|
      ensures Less((a + b)[j], (a + b)[i])
    {
      if i < |a| <= j {
        assert (a + b)[j] in b;
        assert i == |a| - 1 || Less(last, a[i]);
      }
    }
  }

  /** What follows the first n elements is what is less than the last of them. */
  lemma TailIsBelow(items: seq<Key>, n: nat)
    requires StrictlyDescending(items) && 0 < n <= |items|
    ensures forall k :: k in items[n..] <==> k in items && Less(k, items[n - 1])
  {
    forall k | k in items && Less(k, items[n - 1])
      ensures k in items[n..]
    {
      var i :| 0 <= i < |items| && items[i] == k;
      assert i >= n;
      assert items[n..][i - n] == k;
    }
  }

  lemma {:induction false} DescendingIsSorted(keys: set<Key>)
    ensures |Descending(keys)| == |keys| && StrictlyDescending(Descending(keys))
    ensures forall k :: k in Descending(keys) <==> k in keys
    decreases keys
  {
    if keys != {} {
      HasGreatest(keys);
      var k :| Greatest(keys, k) && Descending(keys) == [k] + Descending(keys - {k});
      var rest := Descending(keys - {k});
      DescendingIsSorted(keys - {k});
      assert keys == (keys - {k}) + {k};
      Joined([k], rest, k);
    }
  }

  /** The rows a cursor has not passed. */
  function Below(table: Table, cursor: Option<Key>): set<Key> {
    set k | k in table && (cursor.Some? ==> Less(k, cursor.value))
  }

  function Take(rows: seq<Key>, n: nat): seq<Key> {
    if |rows| > n then rows[..n] else rows
  }

  // ---------- One page ----------

  datatype Page = Page(items: seq<Key>, hasMore: bool, next: Wire)

  ghost function ListMessages(table: Table, participant: bool, cursorValue: Wire, limit: int): Result<Page, Error> {
    match DecodeCursor(cursorValue, Messages)
    case Err(e) => Err(e)
    case Ok(cursor) =>
      if limit < 1 || limit > 100 then Err(InvalidLimit)
      else
        var position := if cursor.Some? then Some(Key(cursor.value.time, cursor.value.id)) else None;
        var rows := if participant then Take(Descending(Below(table, position)), limit + 1) else [];
        if rows == [] && !participant then Err(NotFound)
        else
          var hasMore := |rows| > limit;
          var items := Take(rows, limit);
          Ok(Page(items, hasMore, if hasMore then CursorAt(items[|items| - 1]) else Empty))
  }

  function CursorAt(key: Key): Wire {
    Encoded(Cursor(Messages, key.time, 0, key.id))
  }

  /** A cursor that the server hands out is accepted, and means the row it was made from. */
  lemma CursorRoundTrip(key: Key, kind: Kind)
    requires key.time != ZERO && key.id != NIL
    ensures DecodeCursor(CursorAt(key), kind) ==
            if kind == Messages then Ok(Some(Cursor(Messages, key.time, 0, key.id))) else Err(InvalidCursor)
  {
  }

  /**
    A cursor is accepted exactly if it is empty, or holds a real ID, the kind asked for, and for that kind a
    real time or a position that is not negative; it then means what it holds.
  */
  lemma CursorsAccepted(value: Wire, kind: Kind)
    ensures var r := DecodeCursor(value, kind);
            && (r.Ok? <==>
                  || value == Empty
                  || (&& value.Encoded? && value.cursor.kind == kind && value.cursor.id != 0
                      && if kind == Channels then value.cursor.position >= 0 else value.cursor.time != 0))
            && (r.Ok? ==> r.value == if value == Empty then None else Some(value.cursor))
            && (r.Err? ==> r.error == InvalidCursor)
  {
  }

  /** A participant gets a page exactly for an accepted cursor and a limit from 1 to 100; nobody else gets any. */
  lemma ListMessagesOutcome(table: Table, participant: bool, value: Wire, limit: int)
    ensures var r := ListMessages(table, participant, value, limit);
            var accepted := DecodeCursor(value, Messages).Ok?;
            && (r.Ok? <==> accepted && 1 <= limit <= 100 && participant)
            && (r == Err(InvalidCursor) <==> !accepted)
            && (r == Err(InvalidLimit) <==> accepted && !(1 <= limit <= 100))
            && (r == Err(NotFound) <==> accepted && 1 <= limit <= 100 && !participant)
  {
    hide Descending;
  }

  function PositionOf(value: Wire): Option<Key> {
    if value.Encoded? then Some(Key(value.cursor.time, value.cursor.id)) else None
  }

  /** A cursor value as ListMessages issues them. */
  predicate Issued(value: Wire) {
    value.Empty? || (value.Encoded? && value == CursorAt(PositionOf(value).value) && value.cursor.time != ZERO && value.cursor.id != NIL)
  }

  /** A page is the greatest rows below the cursor: all of them, or limit and a cursor at the last. */
  lemma PageIsTheTop(table: Table, value: Wire, limit: int)
    requires ValidTable(table) && Issued(value) && 1 <= limit <= 100
    ensures ListMessages(table, true, value, limit).Ok?
    ensures var page := ListMessages(table, true, value, limit).value;
            var all := Descending(Below(table, PositionOf(value)));
            && Issued(page.next)
            && (page.hasMore <==> |all| > limit) && (page.hasMore <==> page.next.Encoded?)
            && (page.hasMore ==> page.items == all[..limit] && page.next == CursorAt(all[limit - 1]))
            && (!page.hasMore ==> page.items == all)
  {
    hide Descending, StrictlyDescending;
    var all := Descending(Below(table, PositionOf(value)));
    DescendingIsSorted(Below(table, PositionOf(value)));
    if |all| > limit {
      assert Take(all, limit + 1)[..limit] == all[..limit];
      assert all[limit - 1] in all;
    }
  }

  // ---------- Following the cursors ----------

  /** One request of a walk: the table it finds, which others may have changed since, and its limit. */
  datatype Request = Request(table: Table, limit: int)

  predicate ValidRequests(requests: seq<Request>) {
    forall r | r in requests :: ValidTable(r.table) && 1 <= r.limit <= 100
  }

  /** What a client that follows NextCursor gets, and whether it got to the end. */
  datatype Walk = Walk(items: seq<Key>, ended: bool)

  ghost function Follow(requests: seq<Request>, value: Wire): Walk
    requires ValidRequests(requests) && Issued(value)
    decreases |requests|
  {
    if requests == [] then Walk([], false)
    else
      PageIsTheTop(requests[0].table, value, requests[0].limit);
      var page := ListMessages(requests[0].table, true, value, requests[0].limit).value;
      if !page.hasMore then Walk(page.items, true)
      else
        var rest := Follow(requests[1..], page.next);
        Walk(page.items + rest.items, rest.ended)
  }

  predicate IsBelow(k: Key, value: Wire) {
    PositionOf(value).Some? ==> Less(k, PositionOf(value).value)
  }

  /** The items come in strictly descending order, so none comes twice, and each was in a table asked. */
  lemma {:induction false} WalkDescends(requests: seq<Request>, value: Wire)
    requires ValidRequests(requests) && Issued(value)
    ensures var items := Follow(requests, value).items;
            && StrictlyDescending(items)
            && (forall k | k in items :: IsBelow(k, value))
            && forall k | k in items :: exists r | r in requests :: k in r.table
    decreases |requests|
  {
    hide ListMessages, Descending, Issued;
    if requests != [] {
      PageIsTheTop(requests[0].table, value, requests[0].limit);
      var page := ListMessages(requests[0].table, true, value, requests[0].limit).value;
      var all := Descending(Below(requests[0].table, PositionOf(value)));
      DescendingIsSorted(Below(requests[0].table, PositionOf(value)));
      assert forall k | k in page.items :: k in all;
      if page.hasMore {
        var rest := Follow(requests[1..], page.next).items;
        WalkDescends(requests[1..], page.next);
        Joined(page.items, rest, all[requests[0].limit - 1]);
        forall k | k in rest
          ensures IsBelow(k, value) && exists r | r in requests :: k in r.table
        {
          assert all[requests[0].limit - 1] in all;
          var r :| r in requests[1..] && k in r.table;
          assert r in requests;
        }
      }
    }
  }

  /** A walk to the end returns every row that was there throughout. */
  lemma {:induction false} NothingIsMissed(requests: seq<Request>, value: Wire, k: Key)
    requires ValidRequests(requests) && Issued(value) && Follow(requests, value).ended
    requires IsBelow(k, value) && forall r | r in requests :: k in r.table
    ensures k in Follow(requests, value).items
    decreases |requests|
  {
    hide ListMessages, Descending, Issued;
    PageIsTheTop(requests[0].table, value, requests[0].limit);
    var page := ListMessages(requests[0].table, true, value, requests[0].limit).value;
    var all := Descending(Below(requests[0].table, PositionOf(value)));
    assert requests[0] in requests;
    DescendingIsSorted(Below(requests[0].table, PositionOf(value)));
    assert page.hasMore ==> forall i | 0 <= i < requests[0].limit :: page.items[i] == all[i];
    if page.hasMore && k !in page.items {
      assert k in Below(requests[0].table, PositionOf(value));
      var i :| 0 <= i < |all| && all[i] == k;
      assert forall r | r in requests[1..] :: r in requests;
      NothingIsMissed(requests[1..], page.next, k);
    }
  }

  /** On a table that does not change, the pages are the whole sorted list below the cursor. */
  lemma {:induction false} FixedTable(requests: seq<Request>, value: Wire, table: Table)
    requires ValidRequests(requests) && Issued(value) && Follow(requests, value).ended
    requires forall r | r in requests :: r.table == table
    ensures Follow(requests, value).items == Descending(Below(table, PositionOf(value)))
    decreases |requests|
  {
    hide ListMessages, Descending, Issued;
    assert requests[0] in requests;
    PageIsTheTop(table, value, requests[0].limit);
    var page := ListMessages(table, true, value, requests[0].limit).value;
    var all := Descending(Below(table, PositionOf(value)));
    if page.hasMore {
      assert forall r | r in requests[1..] :: r in requests;
      FixedTable(requests[1..], page.next, table);
      var rest := Descending(Below(table, PositionOf(page.next)));
      DescendingIsSorted(Below(table, PositionOf(value)));
      DescendingIsSorted(Below(table, PositionOf(page.next)));
      TailIsBelow(all, requests[0].limit);
      assert all[requests[0].limit - 1] in all;
      SameOrder(rest, all[requests[0].limit..]);
      assert all == all[..requests[0].limit] + all[requests[0].limit..];
    }
  }

  lemma SomethingIn(items: seq<Key>)
    ensures items != [] ==> exists k :: k in items
  {
    if items != [] {
      assert items[0] in items;
    }
  }

  /** A strictly descending list is determined by its elements. */
  lemma {:induction false} SameOrder(a: seq<Key>, b: seq<Key>)
    requires StrictlyDescending(a) && StrictlyDescending(b) && forall k :: k in a <==> k in b
    ensures a == b
    decreases |a|
  {
    if a == [] {
      SomethingIn(b);
    } else {
      assert a[0] in a && a[0] in b;
      assert b[0] in b && b[0] in a;
      assert a[0] == b[0];
      TailIsBelow(a, 1);
      TailIsBelow(b, 1);
      SameOrder(a[1..], b[1..]);
    }
  }

  /** A walk that has not ended has returned a row per page; so it ends within the rows there ever are. */
  lemma {:induction false} WalksEnd(requests: seq<Request>, value: Wire, universe: set<Key>)
    requires ValidRequests(requests) && Issued(value)
    requires forall r | r in requests :: r.table <= universe
    ensures !Follow(requests, value).ended ==> |requests| <= |Below(universe, PositionOf(value))|
    decreases |requests|
  {
    hide ListMessages, Descending, Issued;
    if requests != [] && !Follow(requests, value).ended {
      assert requests[0] in requests;
      PageIsTheTop(requests[0].table, value, requests[0].limit);
      var page := ListMessages(requests[0].table, true, value, requests[0].limit).value;
      var all := Descending(Below(requests[0].table, PositionOf(value)));
      DescendingIsSorted(Below(requests[0].table, PositionOf(value)));
      var last := all[requests[0].limit - 1];
      assert last in all;
      assert forall r | r in requests[1..] :: r in requests;
      WalksEnd(requests[1..], page.next, universe);
      var before, after := Below(universe, PositionOf(value)), Below(universe, PositionOf(page.next));
      assert after <= before - {last};
      SubsetSize(after, before - {last});
    }
  }
}
