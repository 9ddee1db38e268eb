/** The attachment store statement by statement, and the janitor's sweep over its queue and the objects. */
module MediaStore {
  import opened Common
  import opened Attachments

  /** ORDER BY queued_at, object_key */
  predicate Sooner(queue: map<ID, Time>, rank: ID -> nat, a: ID, b: ID) {
    && a in queue && b in queue
    && (queue[a] < queue[b] || (queue[a] == queue[b] && rank(a) <= rank(b)))
  }

  class AttachmentStore {
    var rows: map<ID, Attachment>
    var messages: map<ID, Message>
    /** storage_deletions: the keys and when they were queued. */
    var queue: map<ID, Time>
    /** Object keys as numbers, in the order of their text. */
    const rank: ID -> nat

    ghost function View(): Db
      reads this
    {
      Db(rows, messages, queue.Keys)
    }

    ghost predicate Outcome(before: Db, expected: Result<Db, Error>, err: Option<Error>)
      reads this
    {
      match expected
      case Ok(after) => err.None? && View() == after
      case Err(e) => err == Some(e) && View() == before
    }

    constructor (rank: ID -> nat)
      ensures View() == Db(map[], map[], {}) && this.rank == rank
    {
      rows, messages, queue, this.rank := map[], map[], map[], rank;
    }

    /** SELECT count(*) of an uploader's rows that are on no message. */
    method CountUnused(uploader: ID) returns (count: nat)
      ensures count == |Unused(rows, uploader)|
    {
      count := 0;
      var pending := rows.Keys;
      ghost var counted: set<ID> := {};
      while pending != {}
        invariant pending <= rows.Keys && counted == Unused(rows, uploader) - pending && count == |counted|
        decreases pending
      {
        var a :| a in pending;
        pending := pending - {a};
        if rows[a].uploader == uploader && rows[a].message.None? {
          count := count + 1;
          counted := counted + {a};
        }
      }
      assert counted == Unused(rows, uploader);
    }

    method CreateAttachment(id: ID, channel: ID, uploader: ID, key: ID, now: Time) returns (err: Option<Error>)
      modifies this`rows
      ensures Outcome(old(View()), Created(old(View()), id, channel, uploader, key, now), err)
    {
      var unused := CountUnused(uploader);
      if unused >= MAX_UNUSED {
        return Some(Quota);
      }
      rows := rows[id := Attachment(channel, uploader, None, false, key, now)];
      return None;
    }

    method MarkAttachmentReady(id: ID) returns (err: Option<Error>)
      modifies this`rows
      ensures Outcome(old(View()), MarkedReady(old(View()), id), err)
    {
      if id !in rows {
        return Some(NotFound);
      }
      rows := rows[id := rows[id].(ready := true)];
      return None;
    }

    /** DELETE FROM attachments, row by row, and the trigger after each; a key that is queued keeps its time. */
    method DeleteRows(gone: set<ID>, now: Time)
      requires gone <= rows.Keys
      modifies this`rows, this`queue
      ensures View() == Without(old(View()), gone)
      ensures forall key | key in queue :: queue[key] == if key in old(queue) then old(queue)[key] else now
    {
      var pending := gone;
      ghost var done: set<ID> := {};
      while pending != {}
        invariant pending <= gone && done == gone - pending
        invariant rows == old(rows) - done && queue.Keys == old(queue).Keys + KeysOf(old(rows), done)
        invariant forall key | key in queue :: queue[key] == if key in old(queue) then old(queue)[key] else now
        decreases pending
      {
        var a :| a in pending;
        if rows[a].key !in queue {
          queue := queue[rows[a].key := now];
        }
        rows := rows - {a};
        assert KeysOf(old(rows), done + {a}) == KeysOf(old(rows), done) + {old(rows)[a].key};
        done := done + {a};
        pending := pending - {a};
      }
      assert done == gone;
    }

    method DeleteAttachment(id: ID, user: ID, now: Time) returns (err: Option<Error>)
      modifies this`rows, this`queue
      ensures Outcome(old(View()), Deleted(old(View()), id, user), err)
    {
      if id in rows && rows[id].uploader == user && rows[id].message.None? {
        DeleteRows({id}, now);
        return None;
      }
      if id in rows && rows[id].uploader == user {
        return Some(InUse);
      }
      return Some(NotFound);
    }

    /** The check for duplicates in CreateMessage of the service. */
    method HasDuplicates(ids: seq<ID>) returns (found: bool)
      ensures found <==> !NoDuplicates(ids)
    {
      var seen: set<ID> := {};
      for i := 0 to |ids|
        invariant seen == SetOf(ids[..i]) && NoDuplicates(ids[..i])
      {
        if ids[i] in seen {
          return true;
        }
        assert ids[..i + 1] == ids[..i] + [ids[i]];
        seen := seen + {ids[i]};
      }
      assert ids[..|ids|] == ids;
      return false;
    }

    /** UPDATE attachments SET message_id for the eligible ones among ids, with the number of rows affected. */
    method Attach(message: ID, channel: ID, author: ID, ids: seq<ID>) returns (affected: nat)
      requires NoDuplicates(ids)
      modifies this`rows
      ensures affected <= |ids|
      ensures affected == |ids| <==> forall a | a in ids :: Attachable(old(View()), a, channel, author)
      ensures affected == |ids| ==> rows == Attached(old(rows), SetOf(ids), message)
    {
      affected := 0;
      assert Attached(rows, SetOf(ids[..0]), message) == rows;
      for i := 0 to |ids|
        invariant affected <= i
        invariant affected == i <==> forall j | 0 <= j < i :: Attachable(old(View()), ids[j], channel, author)
        invariant affected == i ==> rows == Attached(old(rows), SetOf(ids[..i]), message)
        invariant forall j | i <= j < |ids| :: ids[j] in rows <==> ids[j] in old(rows)
        invariant forall j | i <= j < |ids| && ids[j] in rows :: rows[ids[j]] == old(rows)[ids[j]]
      {
        var a := ids[i];
        if a in rows && rows[a].channel == channel && rows[a].uploader == author && rows[a].ready && rows[a].message.None? {
          rows := rows[a := rows[a].(message := Some(message))];
          affected := affected + 1;
        }
        assert SetOf(ids[..i + 1]) == SetOf(ids[..i]) + {a} by {
          assert ids[..i + 1] == ids[..i] + [a];
        }
      }
      assert ids[..|ids|] == ids;
    }

    /** A transaction: the message and its attachments, or a rollback. */
    method CreateMessage(message: ID, channel: ID, author: ID, ids: seq<ID>) returns (err: Option<Error>)
      modifies this
      ensures Outcome(old(View()), Posted(old(View()), message, channel, author, ids), err)
    {
      hide NoDuplicates, Attachable;
      if |ids| > MAX_PER_MESSAGE {
        return Some(Invalid);
      }
      var duplicates := HasDuplicates(ids);
      if duplicates {
        return Some(Invalid);
      }
      var rowsBefore, messagesBefore := rows, messages;
      messages := messages[message := Message(channel, author)];
      if |ids| > 0 {
        assert forall a :: Attachable(View(), a, channel, author) == Attachable(old(View()), a, channel, author) by {
          SameEligibility(View(), old(View()), channel, author);
        }
        var affected := Attach(message, channel, author, ids);
        if affected != |ids| {
          rows, messages := rowsBefore, messagesBefore;
          return Some(Invalid);
        }
      }
      assert |ids| == 0 ==> Attached(rows, SetOf(ids), message) == rows;
      return None;
    }

    method DeleteMessage(message: ID, now: Time)
      modifies this
      ensures View() == WithoutMessage(old(View()), message)
    {
      messages := messages - {message};
      var gone := set a | a in rows && rows[a].message == Some(message);
      DeleteRows(gone, now);
    }

    method ExpireAttachments(pendingBefore: Time, unusedBefore: Time, at: Time)
      modifies this`rows, this`queue
      ensures forall now | pendingBefore == now - PENDING_LIFETIME && unusedBefore == now - UNUSED_LIFETIME ::
                View() == Expired(old(View()), now)
    {
      var stale := set a | a in rows && rows[a].message.None?
        && ((!rows[a].ready && rows[a].created < pendingBefore) || (rows[a].ready && rows[a].created < unusedBefore));
      assert forall now | pendingBefore == now - PENDING_LIFETIME && unusedBefore == now - UNUSED_LIFETIME ::
        stale == StaleIDs(rows, now);
      DeleteRows(stale, at);
    }

    method First(keys: set<ID>) returns (first: ID)
      requires keys != {} && keys <= queue.Keys
      ensures first in keys && forall key | key in keys :: Sooner(queue, rank, first, key)
    {
      first :| first in keys;
      var pending := keys - {first};
      while pending != {}
        invariant pending <= keys && first in keys && first !in pending
        invariant forall key | key in keys && key !in pending :: Sooner(queue, rank, first, key)
        decreases pending
      {
        var key :| key in pending;
        if !Sooner(queue, rank, first, key) {
          first := key;
        }
        pending := pending - {key};
      }
    }

    /** The first of the queue, each key once: none that is left out comes sooner than one that is listed. */
    method PendingStorageDeletions(limit: nat) returns (keys: seq<ID>)
      ensures |keys| <= limit && SetOf(keys) <= queue.Keys && NoDuplicates(keys)
      ensures |keys| < limit ==> SetOf(keys) == queue.Keys
      ensures forall i, j | 0 <= i < j < |keys| :: Sooner(queue, rank, keys[i], keys[j])
      ensures forall listed, left | listed in keys && left in queue && left !in keys :: Sooner(queue, rank, listed, left)
    {
      keys := [];
      var pending := queue.Keys;
      while pending != {} && |keys| < limit
        invariant pending <= queue.Keys && SetOf(keys) == queue.Keys - pending && NoDuplicates(keys) && |keys| <= limit
        invariant forall i, j | 0 <= i < j < |keys| :: Sooner(queue, rank, keys[i], keys[j])
        invariant forall i, left | 0 <= i < |keys| && left in pending :: Sooner(queue, rank, keys[i], left)
        decreases pending
      {
        var key := First(pending);
        assert SetOf(keys + [key]) == SetOf(keys) + {key};
        assert forall i | 0 <= i < |keys| :: keys[i] in SetOf(keys);
        keys := keys + [key];
        pending := pending - {key};
      }
      assert forall left | left in queue && left !in keys :: left in pending by {
        assert forall left | left in SetOf(keys) :: left in keys;
      }
    }

    method CompleteStorageDeletion(key: ID)
      modifies this`queue
      ensures queue == old(queue) - {key}
    {
      queue := queue - {key};
    }
  }

  lemma SameEligibility(db: Db, db': Db, channel: ID, author: ID)
    requires db.rows == db'.rows
    ensures forall a :: Attachable(db, a, channel, author) == Attachable(db', a, channel, author)
  {
  }

  class Janitor {
    const store: AttachmentStore
    /** The keys in the object store. */
    var objects: set<ID>

    constructor (store: AttachmentStore, objects: set<ID>)
      ensures this.store == store && this.objects == objects
    {
      this.store, this.objects := store, objects;
    }

    /**
      One pass that nothing interrupts: it expires what is stale, then deletes the objects of up to 100
      queued keys, and takes off the queue just those whose deletion did not fail.
    */
    method Sweep(now: Time, at: Time, fails: set<ID>) returns (ghost listed: set<ID>)
      modifies this`objects, store`rows, store`queue
      ensures var expired := Expired(old(store.View()), now);
              && |listed| <= 100 && listed <= expired.queue && (|listed| < 100 ==> listed == expired.queue)
              && objects == old(objects) - (listed - fails)
              && store.View() == expired.(queue := expired.queue - (listed - fails))
    {
      hide Expired, NoDuplicates;
      store.ExpireAttachments(now - PENDING_LIFETIME, now - UNUSED_LIFETIME, at);
      var keys := store.PendingStorageDeletions(100);
      listed := SetOf(keys);
      DistinctSize(keys);
      DeleteListed(keys, fails);
    }

    /** The loop over the listed keys. */
    method DeleteListed(keys: seq<ID>, fails: set<ID>)
      modifies this`objects, store`queue
      ensures objects == old(objects) - (SetOf(keys) - fails)
      ensures store.View() == old(store.View()).(queue := old(store.View()).queue - (SetOf(keys) - fails))
    {
      for i := 0 to |keys|
        invariant objects == old(objects) - (SetOf(keys[..i]) - fails)
        invariant store.queue.Keys == old(store.queue).Keys - (SetOf(keys[..i]) - fails)
      {
        assert keys[..i + 1] == keys[..i] + [keys[i]];
        if keys[i] !in fails {
          objects := objects - {keys[i]};
          store.CompleteStorageDeletion(keys[i]);
        }
      }
      assert keys[..|keys|] == keys;
    }
  }

  lemma {:induction false} DistinctSize(keys: seq<ID>)
    requires NoDuplicates(keys)
    ensures |SetOf(keys)| == |keys|
    decreases |keys|
  {
    if keys == [] {
      assert SetOf(keys) == {};
    } else {
      var init, last := keys[..|keys| - 1], keys[|keys| - 1];
      DistinctSize(init);
      assert keys == init + [last];
      assert SetOf(keys) == SetOf(init) + {last};
    }
  }
}
