/**
  Attachments: the transactions of internal/chat/attachments_postgres.go and the message inserts
  and cascades of internal/chat/postgres.go on the rows and the deletion queue, as functions.
*/
module Attachments {
  import opened Common

  datatype Attachment = Attachment(
    channel: ID, uploader: ID, message: Option<ID>, ready: bool, key: ID, created: Time)

  datatype Message = Message(channel: ID, author: ID)

  /** The rows, and the keys queued for deletion by the trigger. */
  datatype Db = Db(rows: map<ID, Attachment>, messages: map<ID, Message>, queue: set<ID>)

  datatype Error = Quota | NotFound | InUse | Invalid

  const MAX_UNUSED := 25
  const MAX_PER_MESSAGE := 10

  /** In seconds. */
  const UPLOAD_LIFETIME: Time := 15 * 60
  const PENDING_LIFETIME: Time := 60 * 60
  const UNUSED_LIFETIME: Time := 24 * 60 * 60

  function Unused(rows: map<ID, Attachment>, uploader: ID): set<ID> {
    set a | a in rows && rows[a].uploader == uploader && rows[a].message.None?
  }

  function KeysOf(rows: map<ID, Attachment>, ids: set<ID>): set<ID> {
    set a | a in ids && a in rows :: rows[a].key
  }

  /** DELETE of some rows, with the trigger that queues their keys. */
  function Without(db: Db, gone: set<ID>): Db {
    db.(rows := db.rows - gone, queue := db.queue + KeysOf(db.rows, gone))
  }

  function Created(db: Db, id: ID, channel: ID, uploader: ID, key: ID, now: Time): Result<Db, Error> {
    if |Unused(db.rows, uploader)| >= MAX_UNUSED then Err(Quota)
    else Ok(db.(rows := db.rows[id := Attachment(channel, uploader, None, false, key, now)]))
  }

  function MarkedReady(db: Db, id: ID): Result<Db, Error> {
    if id !in db.rows then Err(NotFound) else Ok(db.(rows := db.rows[id := db.rows[id].(ready := true)]))
  }

  function Deleted(db: Db, id: ID, user: ID): Result<Db, Error> {
    if id !in db.rows || db.rows[id].uploader != user then Err(NotFound)
    else if db.rows[id].message.Some? then Err(InUse)
    else Ok(Without(db, {id}))
  }

  predicate Attachable(db: Db, id: ID, channel: ID, author: ID) {
    && id in db.rows && db.rows[id].channel == channel && db.rows[id].uploader == author
    && db.rows[id].ready && db.rows[id].message.None?
  }

  predicate NoDuplicates(ids: seq<ID>) {
    forall i, j | 0 <= i < j < |ids| :: ids[i] != ids[j]
  }

  function Attached(rows: map<ID, Attachment>, ids: set<ID>, message: ID): map<ID, Attachment> {
    map a | a in rows :: if a in ids then rows[a].(message := Some(message)) else rows[a]
  }

  /** CreateMessage: every attachment goes on the message or there is no message. */
  function Posted(db: Db, message: ID, channel: ID, author: ID, ids: seq<ID>): Result<Db, Error> {
    if |ids| > MAX_PER_MESSAGE || !NoDuplicates(ids) then Err(Invalid)
    else if exists a | a in ids :: !Attachable(db, a, channel, author) then Err(Invalid)
    else
      Ok(db.(messages := db.messages[message := Message(channel, author)],
             rows := Attached(db.rows, SetOf(ids), message)))
  }

  /** A message's rows go with it, and a channel's messages and rows with the channel. */
  function WithoutMessage(db: Db, message: ID): Db {
    var gone := set a | a in db.rows && db.rows[a].message == Some(message);
    Without(db.(messages := db.messages - {message}), gone)
  }

  function OnMessageOf(db: Db, row: Attachment, channel: ID): bool {
    row.message.Some? && row.message.value in db.messages && db.messages[row.message.value].channel == channel
  }

  function WithoutChannel(db: Db, channel: ID): Db {
    var gone := set a | a in db.rows && (db.rows[a].channel == channel || OnMessageOf(db, db.rows[a], channel));
    Without(db.(messages := map m | m in db.messages && db.messages[m].channel != channel :: db.messages[m]), gone)
  }

  /** ExpireAttachments with the cutoffs of a sweep at this time. */
  predicate Stale(row: Attachment, now: Time) {
    row.message.None?
    && if row.ready then row.created < now - UNUSED_LIFETIME else row.created < now - PENDING_LIFETIME
  }

  function StaleIDs(rows: map<ID, Attachment>, now: Time): set<ID> {
    set a | a in rows && Stale(rows[a], now)
  }

  function Expired(db: Db, now: Time): Db {
    Without(db, StaleIDs(db.rows, now))
  }

  // ---------- When the transactions succeed, and what they do ----------

  /** Every row but one, every message and every queued key is as it was. */
  predicate OnlyRow(db: Db, db': Db, id: ID) {
    && db'.rows.Keys == db.rows.Keys + {id} && db'.messages == db.messages && db'.queue == db.queue
    && forall other | other in db.rows && other != id :: db'.rows[other] == db.rows[other]
  }

  lemma CreateOutcome(db: Db, id: ID, channel: ID, uploader: ID, key: ID, now: Time)
    ensures var r := Created(db, id, channel, uploader, key, now);
            var unused := set a | a in db.rows && db.rows[a].uploader == uploader && db.rows[a].message.None?;
            && (r.Ok? <==> |unused| < 25) && (r.Err? ==> r.error == Quota)
            && (r.Ok? ==>
                  && OnlyRow(db, r.value, id)
                  && var row := r.value.rows[id];
                     && row.channel == channel && row.uploader == uploader && row.message.None? && !row.ready
                     && row.key == key && row.created == now)
  {
    assert Unused(db.rows, uploader) == set a | a in db.rows && db.rows[a].uploader == uploader && db.rows[a].message.None?;
  }

  /** A row that is there becomes ready and stays the same otherwise. */
  lemma MarkReadyOutcome(db: Db, id: ID)
    ensures var r := MarkedReady(db, id);
            && (r.Ok? <==> id in db.rows) && (r.Err? ==> r.error == NotFound)
            && (r.Ok? ==>
                  && OnlyRow(db, r.value, id)
                  && var row, was := r.value.rows[id], db.rows[id];
                     && row.ready && row.channel == was.channel && row.uploader == was.uploader
                     && row.message == was.message && row.key == was.key && row.created == was.created)
  {
  }

  /** These rows went with their keys queued; the other rows and keys are as they were. */
  ghost predicate RowsGone(db: Db, db': Db, gone: ID -> bool) {
    && (forall a :: a in db'.rows <==> a in db.rows && !gone(a))
    && (forall a | a in db'.rows :: db'.rows[a] == db.rows[a])
    && forall k :: k in db'.queue <==> k in db.queue || exists a | a in db.rows :: gone(a) && db.rows[a].key == k
  }

  lemma WithoutIsExact(db: Db, ids: set<ID>, gone: ID -> bool)
    requires forall a | a in db.rows :: a in ids <==> gone(a)
    ensures RowsGone(db, Without(db, ids), gone) && Without(db, ids).messages == db.messages
  {
  }

  /** An unused attachment of the caller's own goes, with its key queued. */
  lemma DeleteOutcome(db: Db, id: ID, user: ID)
    ensures var r := Deleted(db, id, user);
            var own := id in db.rows && db.rows[id].uploader == user;
            && (r.Ok? <==> own && db.rows[id].message.None?)
            && (r == Err(NotFound) <==> !own) && (r == Err(InUse) <==> own && db.rows[id].message.Some?)
            && (r.Ok? ==> r.value.messages == db.messages && RowsGone(db, r.value, a => a == id))
  {
    WithoutIsExact(db, {id}, a => a == id);
    hide RowsGone, Without;
  }

  /**
    A message is posted exactly if it names at most ten attachments, none twice, and each is a ready one of
    its author in its channel that is on no message. It and they are then stored, and nothing else changes.
  */
  lemma PostOutcome(db: Db, message: ID, channel: ID, author: ID, ids: seq<ID>)
    ensures var r := Posted(db, message, channel, author, ids);
            && (r.Ok? <==>
                  && |ids| <= 10 && (forall i, j | 0 <= i < j < |ids| :: ids[i] != ids[j])
                  && forall a | a in ids ::
                       && a in db.rows && db.rows[a].channel == channel && db.rows[a].uploader == author
                       && db.rows[a].ready && db.rows[a].message.None?)
            && (r.Err? ==> r.error == Invalid)
            && (r.Ok? ==>
                  && r.value.queue == db.queue && r.value.rows.Keys == db.rows.Keys
                  && r.value.messages.Keys == db.messages.Keys + {message}
                  && r.value.messages[message] == Message(channel, author)
                  && (forall m | m in db.messages && m != message :: r.value.messages[m] == db.messages[m])
                  && forall a | a in db.rows ::
                       && r.value.rows[a].message == (if a in ids then Some(message) else db.rows[a].message)
                       && r.value.rows[a].(message := db.rows[a].message) == db.rows[a])
  {
    assert NoDuplicates(ids) <==> forall i, j | 0 <= i < j < |ids| :: ids[i] != ids[j];
    hide NoDuplicates;
  }

  /** A message takes its attachments with it. */
  lemma DeleteMessageOutcome(db: Db, message: ID)
    ensures var db' := WithoutMessage(db, message);
            && db'.messages == db.messages - {message}
            && RowsGone(db, db', a => a in db.rows && db.rows[a].message == Some(message))
  {
    var gone := set a | a in db.rows && db.rows[a].message == Some(message);
    WithoutIsExact(db.(messages := db.messages - {message}), gone, a => a in db.rows && db.rows[a].message == Some(message));
  }

  /** A channel takes its messages with it, and the attachments made for it or on them. */
  lemma DeleteChannelOutcome(db: Db, channel: ID)
    ensures var db' := WithoutChannel(db, channel);
            && (forall m :: m in db'.messages <==> m in db.messages && db.messages[m].channel != channel)
            && (forall m | m in db'.messages :: db'.messages[m] == db.messages[m])
            && RowsGone(db, db', a => OfChannel(db, channel, a))
  {
    var gone := set a | a in db.rows && OfChannel(db, channel, a);
    assert gone == set a | a in db.rows && (db.rows[a].channel == channel || OnMessageOf(db, db.rows[a], channel));
    WithoutIsExact(db.(messages := WithoutChannel(db, channel).messages), gone, a => OfChannel(db, channel, a));
    hide OfChannel, OnMessageOf;
  }

  predicate OfChannel(db: Db, channel: ID, a: ID) {
    && a in db.rows
    && (db.rows[a].channel == channel ||
        (db.rows[a].message.Some? && db.rows[a].message.value in db.messages
         && db.messages[db.rows[a].message.value].channel == channel))
  }

  // ---------- Invariants of the rows ----------

  ghost predicate DistinctKeys(rows: map<ID, Attachment>) {
    forall a, b | a in rows && b in rows && rows[a].key == rows[b].key :: a == b
  }

  ghost predicate QuotaHolds(rows: map<ID, Attachment>) {
    forall u :: |Unused(rows, u)| <= MAX_UNUSED
  }

  /** An attached row is ready, and on a message of its own channel and uploader. */
  ghost predicate WellAttached(db: Db) {
    forall a | a in db.rows && db.rows[a].message.Some? ::
      && db.rows[a].ready && db.rows[a].message.value in db.messages
      && db.messages[db.rows[a].message.value] == Message(db.rows[a].channel, db.rows[a].uploader)
  }

  /** Rows that disappear or get a message only lower the counts. */
  lemma QuotaShrinks(rows: map<ID, Attachment>, rows': map<ID, Attachment>)
    requires QuotaHolds(rows)
    requires forall a | a in rows' ::
      a in rows && rows'[a].uploader == rows[a].uploader && (rows'[a].message.None? ==> rows[a].message.None?)
    ensures QuotaHolds(rows')
  {
    forall u
      ensures |Unused(rows', u)| <= MAX_UNUSED
    {
      SubsetSize(Unused(rows', u), Unused(rows, u));
    }
  }

  lemma OneMoreUnused(rows: map<ID, Attachment>, id: ID, row: Attachment, u: ID)
    requires id !in rows && row.message.None?
    ensures Unused(rows[id := row], u) == if u == row.uploader then Unused(rows, u) + {id} else Unused(rows, u)
  {
  }

  lemma CreateKeepsQuota(db: Db, id: ID, channel: ID, uploader: ID, key: ID, now: Time)
    requires QuotaHolds(db.rows) && id !in db.rows && Created(db, id, channel, uploader, key, now).Ok?
    ensures QuotaHolds(Created(db, id, channel, uploader, key, now).value.rows)
  {
    hide Unused;
    forall u
      ensures |Unused(Created(db, id, channel, uploader, key, now).value.rows, u)| <= MAX_UNUSED
    {
      OneMoreUnused(db.rows, id, Attachment(channel, uploader, None, false, key, now), u);
      SmallerByOne(Unused(db.rows, u), id);
    }
  }

  lemma SmallerByOne(ids: set<ID>, id: ID)
    ensures |ids + {id}| <= |ids| + 1
  {
    if id in ids {
      assert ids + {id} == ids;
    }
  }
}
