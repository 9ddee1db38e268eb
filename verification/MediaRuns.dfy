/**
  Attachments, messages, clients that upload and sweeps of internal/media/janitor.go, interleaved
  at every step: one store transaction, one object put, or one object deleted at a time.
*/
module MediaRuns {
  import opened Common
  import opened Attachments

  datatype Step =
    | Create(id: ID, channel: ID, uploader: ID, key: ID, now: Time)
    | SignURL(key: ID, now: Time)
    | Upload(key: ID, now: Time)
    | Stat(id: ID)
    | MarkReady(id: ID)
    | Delete(id: ID, user: ID)
    | Post(message: ID, channel: ID, author: ID, ids: seq<ID>)
    | DeleteMessage(message: ID)
    | DeleteChannel(channel: ID)
    | SweepExpires(now: Time)
    | SweepLists(sweep: ID, keys: set<ID>)
    | SweepDeletes(task: Task)
    | SweepCompletes(task: Task)
    | SweepSkips(task: Task)

  /** A key that a sweep has listed; sweeps may overlap. */
  datatype Task = Task(sweep: ID, key: ID)

  /**
    The tables, the objects in the store, the attachments whose object a finalizing call has seen, the
    listed tasks that are not finished, those of them whose object is deleted already, every key ever
    made, the keys that were ever uploaded when they had no row any more, when the upload URL of a key
    was signed, and the last clock reading.
  */
  datatype World = World(
    db: Db, objects: set<ID>, seen: set<ID>, inFlight: set<Task>, deleted: set<Task>, made: set<ID>, late: set<ID>,
    signed: map<ID, Time>, clock: Time)

  predicate LiveKey(db: Db, key: ID) {
    exists a | a in db.rows :: db.rows[a].key == key
  }

  /** Identifiers are fresh, the clock does not run backwards, and a signed URL works for its lifetime. */
  predicate Enabled(w: World, step: Step) {
    match step
    case Create(id, _, _, key, now) => w.clock <= now && id !in w.db.rows && id !in w.seen && key !in w.made
    case SignURL(key, now) => w.clock <= now && key in w.made && key !in w.signed
    case Upload(key, now) => w.clock <= now && key in w.signed && now <= w.signed[key] + UPLOAD_LIFETIME
    case SweepExpires(now) => w.clock <= now
    case Stat(id) => id in w.db.rows && w.db.rows[id].key in w.objects
    case MarkReady(id) => id in w.seen
    case Post(message, _, _, _) => message !in w.db.messages
    case SweepLists(_, keys) => keys <= w.db.queue && |keys| <= 100
    case SweepDeletes(task) => task in w.inFlight
    case SweepCompletes(task) => task in w.deleted
    case SweepSkips(task) => task in w.inFlight
    case _ => true
  }

  /** A refused call changes nothing. */
  function Committed(db: Db, r: Result<Db, Error>): Db {
    if r.Ok? then r.value else db
  }

  function Apply(w: World, step: Step): World {
    match step
    case Create(id, channel, uploader, key, now) =>
      var r := Created(w.db, id, channel, uploader, key, now);
      if r.Ok? then w.(db := r.value, made := w.made + {key}, clock := now) else w.(clock := now)
    case SignURL(key, now) => w.(signed := w.signed[key := now], clock := now)
    case Upload(key, now) =>
      w.(objects := w.objects + {key}, late := if LiveKey(w.db, key) then w.late else w.late + {key}, clock := now)
    case Stat(id) => w.(seen := w.seen + {id})
    case MarkReady(id) => w.(db := Committed(w.db, MarkedReady(w.db, id)))
    case Delete(id, user) => w.(db := Committed(w.db, Deleted(w.db, id, user)))
    case Post(message, channel, author, ids) => w.(db := Committed(w.db, Posted(w.db, message, channel, author, ids)))
    case DeleteMessage(message) => w.(db := WithoutMessage(w.db, message))
    case DeleteChannel(channel) => w.(db := WithoutChannel(w.db, channel))
    case SweepExpires(now) => w.(db := Expired(w.db, now), clock := now)
    case SweepLists(sweep, keys) => w.(inFlight := w.inFlight + TasksOf(sweep, keys))
    case SweepDeletes(task) => w.(objects := w.objects - {task.key}, deleted := w.deleted + {task})
    case SweepCompletes(task) =>
      w.(db := w.db.(queue := w.db.queue - {task.key}), inFlight := w.inFlight - {task}, deleted := w.deleted - {task})
    case SweepSkips(task) => w.(inFlight := w.inFlight - {task}, deleted := w.deleted - {task})
  }

  function TasksOf(sweep: ID, keys: set<ID>): set<Task> {
    set k | k in keys :: Task(sweep, k)
  }

  ghost predicate Possible(w: World, steps: seq<Step>)
    decreases |steps|
  {
    steps == [] || (Enabled(w, steps[0]) && Possible(Apply(w, steps[0]), steps[1..]))
  }

  function Run(w: World, steps: seq<Step>): World
    decreases |steps|
  {
    if steps == [] then w else Run(Apply(w, steps[0]), steps[1..])
  }

  function Init(start: Time): World {
    World(Db(map[], map[], {}), {}, {}, {}, {}, {}, {}, map[], start)
  }

  // ---------- Keys ----------

  /** A key of a live row is neither queued nor being deleted. */
  ghost predicate LiveAndDeadApart(w: World) {
    && (forall a | a in w.db.rows ::
          w.db.rows[a].key in w.made && w.db.rows[a].key !in w.db.queue)
    && w.db.queue <= w.made
    && (forall t | t in w.inFlight :: t.key in w.made)
    && forall t, a | t in w.inFlight && a in w.db.rows :: w.db.rows[a].key != t.key
  }

  /** A row that is ready, or about to be marked so, has its object. */
  ghost predicate ObjectsThere(w: World) {
    forall a | a in w.db.rows && (w.db.rows[a].ready || a in w.seen) :: w.db.rows[a].key in w.objects
  }

  /** An object whose row is gone is still queued for deletion, unless it was uploaded after that. */
  ghost predicate NoOrphans(w: World) {
    && (forall k | k in w.objects :: LiveKey(w.db, k) || k in w.db.queue || k in w.late)
    && w.deleted <= w.inFlight
    && forall t | t in w.deleted :: t.key !in w.objects || t.key in w.late
  }

  ghost predicate Inv(w: World) {
    && DistinctKeys(w.db.rows) && LiveAndDeadApart(w) && ObjectsThere(w) && NoOrphans(w)
    && QuotaHolds(w.db.rows) && WellAttached(w.db)
  }

  /** Deleting rows, with some messages, queues keys that no other row has. */
  lemma WithoutKeepsKeys(w: World, messages: map<ID, Message>, gone: set<ID>)
    requires DistinctKeys(w.db.rows) && LiveAndDeadApart(w) && ObjectsThere(w) && NoOrphans(w) && QuotaHolds(w.db.rows)
    ensures var w' := w.(db := Without(w.db.(messages := messages), gone));
            && DistinctKeys(w'.db.rows) && LiveAndDeadApart(w') && ObjectsThere(w') && NoOrphans(w')
            && QuotaHolds(w'.db.rows)
  {
    QuotaShrinks(w.db.rows, w.db.rows - gone) by { hide QuotaHolds; }
    hide QuotaHolds;
    var db' := Without(w.db.(messages := messages), gone);
    forall k | k in w.objects && LiveKey(w.db, k)
      ensures LiveKey(db', k) || k in db'.queue
    {
      var a :| a in w.db.rows && w.db.rows[a].key == k;
      if a !in gone {
        assert a in db'.rows;
      }
    }
    hide LiveKey;
  }

  lemma AtAnyTime(w: World, now: Time)
    requires LiveAndDeadApart(w) && ObjectsThere(w) && NoOrphans(w)
    ensures LiveAndDeadApart(w.(clock := now)) && ObjectsThere(w.(clock := now)) && NoOrphans(w.(clock := now))
  {
  }

  lemma DeletionKeeps(w: World, step: Step)
    requires Inv(w) && (step.Delete? || step.DeleteMessage? || step.DeleteChannel? || step.SweepExpires?)
    ensures Inv(Apply(w, step))
  {
    hide DistinctKeys, LiveAndDeadApart, ObjectsThere, NoOrphans, QuotaHolds;
    match step
    case Delete(id, user) =>
      WithoutKeepsKeys(w, w.db.messages, {id});
    case DeleteMessage(message) =>
      WithoutKeepsKeys(w, w.db.messages - {message}, set a | a in w.db.rows && w.db.rows[a].message == Some(message));
    case DeleteChannel(channel) =>
      WithoutKeepsKeys(
        w, map m | m in w.db.messages && w.db.messages[m].channel != channel :: w.db.messages[m],
        set a | a in w.db.rows && (w.db.rows[a].channel == channel || OnMessageOf(w.db, w.db.rows[a], channel)));
    case SweepExpires(now) =>
      AtAnyTime(w, now);
      WithoutKeepsKeys(w.(clock := now), w.db.messages, StaleIDs(w.db.rows, now));
  }

  lemma CreateKeeps(w: World, step: Step)
    requires Inv(w) && step.Create? && Enabled(w, step)
    ensures Inv(Apply(w, step))
  {
    hide QuotaHolds;
    if Created(w.db, step.id, step.channel, step.uploader, step.key, step.now).Ok? {
      CreateKeepsQuota(w.db, step.id, step.channel, step.uploader, step.key, step.now);
      forall k | LiveKey(w.db, k)
        ensures LiveKey(Apply(w, step).db, k)
      {
        var a :| a in w.db.rows && w.db.rows[a].key == k;
        assert a in Apply(w, step).db.rows;
      }
    }
  }

  lemma PostKeeps(w: World, step: Step)
    requires Inv(w) && step.Post? && Enabled(w, step)
    ensures Inv(Apply(w, step))
  {
    QuotaShrinks(w.db.rows, Apply(w, step).db.rows) by { hide QuotaHolds, DistinctKeys, WellAttached; }
    hide QuotaHolds;
    hide NoDuplicates;
  }

  lemma ReadyKeeps(w: World, step: Step)
    requires Inv(w) && step.MarkReady? && Enabled(w, step)
    ensures Inv(Apply(w, step))
  {
    QuotaShrinks(w.db.rows, Apply(w, step).db.rows) by { hide QuotaHolds, DistinctKeys, WellAttached; }
    hide QuotaHolds;
  }

  lemma ObjectStepKeeps(w: World, step: Step)
    requires Inv(w) && Enabled(w, step)
    requires step.SignURL? || step.Upload? || step.Stat? || step.SweepLists? || step.SweepDeletes? || step.SweepCompletes? || step.SweepSkips?
    ensures Inv(Apply(w, step))
  {
    hide QuotaHolds, DistinctKeys, WellAttached;
    assert Apply(w, step).db.rows == w.db.rows && Apply(w, step).db.messages == w.db.messages;
    assert WellAttached(Apply(w, step).db) by { SameAttachments(w.db, Apply(w, step).db); }
  }

  lemma SameAttachments(db: Db, db': Db)
    requires WellAttached(db) && db'.rows == db.rows && db'.messages == db.messages
    ensures WellAttached(db')
  {
  }

  lemma ApplyInv(w: World, step: Step)
    requires Inv(w) && Enabled(w, step)
    ensures Inv(Apply(w, step))
  {
    hide Inv, Enabled, Apply;
    match step
    case Create(_, _, _, _, _) => CreateKeeps(w, step);
    case MarkReady(_) => ReadyKeeps(w, step);
    case Post(_, _, _, _) => PostKeeps(w, step);
    case Delete(_, _) => DeletionKeeps(w, step);
    case DeleteMessage(_) => DeletionKeeps(w, step);
    case DeleteChannel(_) => DeletionKeeps(w, step);
    case SweepExpires(_) => DeletionKeeps(w, step);
    case SignURL(_, _) => ObjectStepKeeps(w, step);
    case Upload(_, _) => ObjectStepKeeps(w, step);
    case Stat(_) => ObjectStepKeeps(w, step);
    case SweepLists(_, _) => ObjectStepKeeps(w, step);
    case SweepDeletes(_) => ObjectStepKeeps(w, step);
    case SweepCompletes(_) => ObjectStepKeeps(w, step);
    case SweepSkips(_) => ObjectStepKeeps(w, step);
  }

  lemma InitInv(start: Time)
    ensures Inv(Init(start))
  {
    forall u
      ensures |Unused(Init(start).db.rows, u)| <= MAX_UNUSED
    {
      assert Unused(Init(start).db.rows, u) == {};
    }
  }

  lemma {:induction false} RunInv(w: World, steps: seq<Step>)
    requires Inv(w) && Possible(w, steps)
    ensures Inv(Run(w, steps))
    decreases |steps|
  {
    hide Inv, Enabled, Apply;
    if steps != [] {
      ApplyInv(w, steps[0]);
      RunInv(Apply(w, steps[0]), steps[1..]);
    }
  }

  // ---------- What every run shows ----------

  /** Wherever sweeps are in their work, no step of theirs deletes the object of a live row. */
  lemma SweepsSpareLiveObjects(start: Time, steps: seq<Step>, task: Task, a: ID)
    requires Possible(Init(start), steps) && a in Run(Init(start), steps).db.rows
    ensures var w := Run(Init(start), steps);
            && w.db.rows[a].key !in w.db.queue
            && (Enabled(w, SweepDeletes(task)) ==> task.key != w.db.rows[a].key)
            && (w.db.rows[a].ready ==> w.db.rows[a].key in w.objects)
  {
    hide DistinctKeys, NoOrphans, QuotaHolds, WellAttached;
    InitInv(start);
    RunInv(Init(start), steps);
  }

  /** An object is some row's, or queued for deletion, or was uploaded when its row was gone already. */
  lemma OnlyLateUploadsAreOrphaned(start: Time, steps: seq<Step>, key: ID)
    requires Possible(Init(start), steps) && key in Run(Init(start), steps).objects
    ensures var w := Run(Init(start), steps); LiveKey(w.db, key) || key in w.db.queue || key in w.late
  {
    hide DistinctKeys, LiveAndDeadApart, ObjectsThere, QuotaHolds, WellAttached;
    InitInv(start);
    RunInv(Init(start), steps);
  }

  /** Nobody has more than 25 attachments that are not on a message. */
  lemma QuotaIsNeverExceeded(start: Time, steps: seq<Step>, uploader: ID)
    requires Possible(Init(start), steps)
    ensures |Unused(Run(Init(start), steps).db.rows, uploader)| <= MAX_UNUSED
  {
    hide DistinctKeys, LiveAndDeadApart, ObjectsThere, NoOrphans, WellAttached, Unused;
    InitInv(start);
    RunInv(Init(start), steps);
  }

  /** What is attached is ready and matches its message. */
  lemma AttachedMatchesItsMessage(start: Time, steps: seq<Step>, a: ID)
    requires Possible(Init(start), steps) && a in Run(Init(start), steps).db.rows && Run(Init(start), steps).db.rows[a].message.Some?
    ensures var db := Run(Init(start), steps).db; var row := db.rows[a];
            && row.ready && row.message.value in db.messages
            && db.messages[row.message.value] == Message(row.channel, row.uploader)
  {
    hide DistinctKeys, LiveAndDeadApart, ObjectsThere, NoOrphans, QuotaHolds;
    InitInv(start);
    RunInv(Init(start), steps);
  }

  /** The steps that take a row's message or its channel away. */
  predicate EndsMessage(step: Step, row: Attachment) {
    (step.DeleteMessage? && Some(step.message) == row.message) || (step.DeleteChannel? && step.channel == row.channel)
  }

  lemma StepKeepsAttached(w: World, step: Step, a: ID)
    requires Inv(w) && Enabled(w, step) && a in w.db.rows && w.db.rows[a].message.Some?
    requires !EndsMessage(step, w.db.rows[a])
    ensures a in Apply(w, step).db.rows && Apply(w, step).db.rows[a] == w.db.rows[a]
  {
    hide DistinctKeys, LiveAndDeadApart, ObjectsThere, NoOrphans, QuotaHolds, NoDuplicates, KeysOf;
  }

  /** Unless its message or channel is deleted, an attached row never expires, moves or changes, and keeps its object. */
  lemma {:induction false} AttachedStays(w: World, steps: seq<Step>, a: ID)
    requires Inv(w) && Possible(w, steps) && a in w.db.rows && w.db.rows[a].message.Some?
    requires forall s | s in steps :: !EndsMessage(s, w.db.rows[a])
    ensures var w' := Run(w, steps); a in w'.db.rows && w'.db.rows[a] == w.db.rows[a] && w'.db.rows[a].key in w'.objects
    decreases |steps|
  {
    hide Enabled, Apply, EndsMessage, DistinctKeys, LiveAndDeadApart, NoOrphans, QuotaHolds;
    if steps != [] {
      assert steps[0] in steps;
      assert forall s | s in steps[1..] :: s in steps;
      ApplyInv(w, steps[0]);
      StepKeepsAttached(w, steps[0], a);
      AttachedStays(Apply(w, steps[0]), steps[1..], a);
    }
  }

  /** Posting attaches all of the attachments or leaves everything as it was. */
  lemma PostIsAllOrNothing(db: Db, message: ID, channel: ID, author: ID, ids: seq<ID>)
    requires message !in db.messages && WellAttached(db)
    ensures var db' := Committed(db, Posted(db, message, channel, author, ids));
            && (forall a | a in db'.rows && db'.rows[a].message == Some(message) :: a in ids)
            && (db' != db <==> message in db'.messages)
            && (message in db'.messages ==>
                  && |ids| <= MAX_PER_MESSAGE && NoDuplicates(ids)
                  && forall a | a in ids :: a in db'.rows && db'.rows[a].message == Some(message) && db.rows[a].message.None?)
  {
    hide NoDuplicates;
  }

  /** The steps that delete a row by somebody's wish: itself, its message or its channel. */
  predicate Discards(w: World, step: Step, a: ID)
    requires a in w.db.rows
  {
    (step.Delete? && step.id == a) || EndsMessage(step, w.db.rows[a])
  }

  /** No step of a run discards the row. */
  ghost predicate Undiscarded(w: World, steps: seq<Step>, a: ID)
    decreases |steps|
  {
    steps == [] ||
    ((a in w.db.rows ==> !Discards(w, steps[0], a)) && Undiscarded(Apply(w, steps[0]), steps[1..], a))
  }

  /** Only a sweep that finds it stale removes a row nobody discards; its key and its age never change. */
  lemma StepKeepsRow(w: World, step: Step, a: ID)
    requires Inv(w) && Enabled(w, step) && a in w.db.rows && !Discards(w, step, a)
    ensures a !in Apply(w, step).db.rows ==> step.SweepExpires? && Stale(w.db.rows[a], step.now)
    ensures a in Apply(w, step).db.rows ==>
              && Apply(w, step).db.rows[a].key == w.db.rows[a].key
              && Apply(w, step).db.rows[a].created == w.db.rows[a].created
    ensures Apply(w, step).clock >= w.clock
  {
    hide DistinctKeys, LiveAndDeadApart, ObjectsThere, NoOrphans, QuotaHolds, NoDuplicates, KeysOf;
  }

  lemma {:induction false} ClockRises(w: World, steps: seq<Step>)
    requires Possible(w, steps)
    ensures Run(w, steps).clock >= w.clock
    decreases |steps|
  {
    if steps != [] {
      ClockRises(Apply(w, steps[0]), steps[1..]);
    }
  }

  /** No row goes stale within the shorter of the two lifetimes, finalized meanwhile or not. */
  lemma {:induction false} YoungRowsStay(w: World, steps: seq<Step>, a: ID)
    requires Inv(w) && Possible(w, steps) && a in w.db.rows && Undiscarded(w, steps, a)
    requires Run(w, steps).clock <= w.db.rows[a].created + PENDING_LIFETIME
    ensures a in Run(w, steps).db.rows
    decreases |steps|
  {
    hide Inv, Enabled, Apply, Discards;
    if steps != [] {
      ApplyInv(w, steps[0]);
      StepKeepsRow(w, steps[0], a);
      ClockRises(Apply(w, steps[0]), steps[1..]);
      SweepTellsTheTime(w, steps[0]);
      YoungRowsStay(Apply(w, steps[0]), steps[1..], a);
    }
  }

  lemma SweepTellsTheTime(w: World, step: Step)
    ensures step.SweepExpires? ==> Apply(w, step).clock == step.now
  {
  }

  /**
    In every run, an upload whose URL is signed within 45 minutes of its row keeps the row for as long
    as the URL works, unless somebody deletes the row, its message or its channel.
  */
  lemma PendingOutlivesItsURL(start: Time, before: seq<Step>, sign: Step, later: seq<Step>, a: ID)
    requires Possible(Init(start), before) && a in Run(Init(start), before).db.rows
    requires var w := Run(Init(start), before);
             && sign.SignURL? && sign.key == w.db.rows[a].key && Enabled(w, sign)
             && sign.now <= w.db.rows[a].created + 45 * 60
             && Possible(Apply(w, sign), later) && Undiscarded(Apply(w, sign), later, a)
             && Run(Apply(w, sign), later).clock <= sign.now + UPLOAD_LIFETIME
    ensures a in Run(Apply(Run(Init(start), before), sign), later).db.rows
  {
    hide Inv, Undiscarded;
    InitInv(start);
    RunInv(Init(start), before);
    var w := Run(Init(start), before);
    ApplyInv(w, sign);
    YoungRowsStay(Apply(w, sign), later, a);
  }

  /** Forty-five minutes are exact: only a URL signed later can work when a sweep removes its pending row. */
  lemma LateURLsOutliveTheirRow(row: Attachment, signed: Time)
    requires row.message.None? && !row.ready && row.created <= signed
    ensures signed > row.created + 45 * 60 <==>
            exists now :: signed <= now <= signed + UPLOAD_LIFETIME && Stale(row, now)
  {
    if signed > row.created + 45 * 60 {
      assert Stale(row, signed + UPLOAD_LIFETIME);
    }
  }

  /** What a sweep removes is exactly what is on no message and too old; a row is queued as it goes. */
  lemma SweepExpiresExactly(db: Db, now: Time, a: ID)
    requires a in db.rows
    ensures a in Expired(db, now).rows <==>
            db.rows[a].message.Some? || db.rows[a].created >= now - (if db.rows[a].ready then 24 * 60 * 60 else 60 * 60)
    ensures a !in Expired(db, now).rows ==> db.rows[a].key in Expired(db, now).queue
    ensures a in Expired(db, now).rows ==> Expired(db, now).rows[a] == db.rows[a]
  {
  }
}
