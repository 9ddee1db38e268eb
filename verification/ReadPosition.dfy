/**
  Read positions: UpdateReadState of internal/chat/readstate_postgres.go against messages that
  others post and delete. The position is a message ID that outlives its message.
*/
module ReadPosition {
  import opened Common

  /** IDs of messages are numbers here, since positions order by them. */
  type MessageID = nat

  datatype Message = Message(channel: ID, created: Time)

  datatype ReadState = ReadState(last: MessageID, updated: Time)

  /** The row of a user in a channel. */
  datatype Reader = Reader(user: ID, channel: ID)

  datatype Db = Db(messages: map<MessageID, Message>, rows: map<Reader, ReadState>)

  datatype Error = NotFound

  datatype Answer = Answer(state: ReadState, changed: bool)

  /** Equal times are ordered by ID. */
  predicate NotAfter(t: Time, id: MessageID, t': Time, id': MessageID) {
    t < t' || (t == t' && id <= id')
  }

  predicate Behind(db: Db, reader: Reader, message: MessageID)
    requires message in db.messages
  {
    && reader in db.rows && db.rows[reader].last in db.messages
    && NotAfter(db.messages[message].created, message, db.messages[db.rows[reader].last].created, db.rows[reader].last)
  }

  /** UpdateReadState */
  function Update(db: Db, reader: Reader, message: MessageID, participant: bool, now: Time): (Db, Result<Answer, Error>) {
    if !participant || message !in db.messages || db.messages[message].channel != reader.channel then (db, Err(NotFound))
    else if Behind(db, reader, message) then (db, Ok(Answer(db.rows[reader], false)))
    else (db.(rows := db.rows[reader := ReadState(message, now)]), Ok(Answer(ReadState(message, now), true)))
  }

  // ---------- Runs ----------

  /** A new message has a fresh ID; deleting a channel deletes its messages one by one. */
  datatype Op =
    | Post(id: MessageID, message: Message)
    | Delete(id: MessageID)
    | Read(reader: Reader, target: MessageID, participant: bool, now: Time)

  /** The tables, and every message ever posted. */
  datatype State = State(db: Db, posted: map<MessageID, Message>)

  predicate Enabled(st: State, op: Op) {
    op.Post? ==> op.id !in st.posted
  }

  function Apply(st: State, op: Op): State {
    match op
    case Post(id, message) =>
      State(st.db.(messages := st.db.messages[id := message]), st.posted[id := message])
    case Delete(id) => st.(db := st.db.(messages := st.db.messages - {id}))
    case Read(reader, target, participant, now) => st.(db := Update(st.db, reader, target, participant, now).0)
  }

  ghost predicate Possible(st: State, ops: seq<Op>)
    decreases |ops|
  {
    ops == [] || (Enabled(st, ops[0]) && Possible(Apply(st, ops[0]), ops[1..]))
  }

  function Run(st: State, ops: seq<Op>): State
    decreases |ops|
  {
    if ops == [] then st else Run(Apply(st, ops[0]), ops[1..])
  }

  function Init(): State {
    State(Db(map[], map[]), map[])
  }

  ghost predicate Inv(st: State) {
    && (forall m | m in st.db.messages :: m in st.posted && st.posted[m] == st.db.messages[m])
    && forall r | r in st.db.rows :: st.db.rows[r].last in st.posted
  }

  lemma ApplyInv(st: State, op: Op)
    requires Inv(st) && Enabled(st, op)
    ensures Inv(Apply(st, op))
    ensures forall m | m in st.posted :: m in Apply(st, op).posted && Apply(st, op).posted[m] == st.posted[m]
  {
  }

  /** The position of one reader is no later than another state's. */
  ghost predicate NoLater(st: State, st': State, reader: Reader)
    requires Inv(st) && Inv(st')
  {
    reader in st.db.rows ==>
      && reader in st'.db.rows && st.db.rows[reader].last in st'.posted
      && NotAfter(st'.posted[st.db.rows[reader].last].created, st.db.rows[reader].last,
                  st'.posted[st'.db.rows[reader].last].created, st'.db.rows[reader].last)
  }

  /** The reader's last-read message is still there. */
  predicate Anchored(st: State, reader: Reader) {
    reader in st.db.rows ==> st.db.rows[reader].last in st.db.messages
  }

  /** It is there before every step of a run; the last step may delete it. */
  ghost predicate AnchoredThroughout(st: State, ops: seq<Op>, reader: Reader)
    decreases |ops|
  {
    ops == [] || (Anchored(st, reader) && AnchoredThroughout(Apply(st, ops[0]), ops[1..], reader))
  }

  /** The call answers, so its target was accepted as a position. */
  predicate Accepts(st: State, op: Op, reader: Reader) {
    op.Read? && op.reader == reader && Update(st.db, op.reader, op.target, op.participant, op.now).1.Ok?
  }

  /** The targets of the accepted updates of a reader. */
  ghost function Accepted(st: State, ops: seq<Op>, reader: Reader): set<MessageID>
    decreases |ops|
  {
    if ops == [] then {}
    else
      (if Accepts(st, ops[0], reader) then {ops[0].target} else {}) + Accepted(Apply(st, ops[0]), ops[1..], reader)
  }

  lemma StepRises(st: State, op: Op, reader: Reader)
    requires Inv(st) && Enabled(st, op) && Inv(Apply(st, op)) && Anchored(st, reader)
    ensures NoLater(st, Apply(st, op), reader)
    ensures Accepts(st, op, reader) ==>
              && reader in Apply(st, op).db.rows && op.target in Apply(st, op).posted
              && var st' := Apply(st, op); var last := st'.db.rows[reader].last;
                 NotAfter(st'.posted[op.target].created, op.target, st'.posted[last].created, last)
  {
  }

  lemma NoLaterTransitive(st: State, st1: State, st2: State, reader: Reader)
    requires Inv(st) && Inv(st1) && Inv(st2) && NoLater(st, st1, reader) && NoLater(st1, st2, reader)
    requires forall m | m in st1.posted :: m in st2.posted && st2.posted[m] == st1.posted[m]
    ensures NoLater(st, st2, reader)
  {
  }

  /**
    As long as the last-read message is not deleted, the position only rises, and ends as the greatest
    of where it was and the accepted targets, in whatever order they came.
  */
  lemma {:induction false} PositionIsTheGreatest(st: State, ops: seq<Op>, reader: Reader)
    requires Inv(st) && Possible(st, ops) && AnchoredThroughout(st, ops, reader)
    ensures var st' := Run(st, ops);
            && Inv(st') && NoLater(st, st', reader)
            && (forall m | m in st.posted :: m in st'.posted && st'.posted[m] == st.posted[m])
            && (forall m | m in Accepted(st, ops, reader) ::
                  && reader in st'.db.rows && m in st'.posted
                  && var last := st'.db.rows[reader].last;
                     NotAfter(st'.posted[m].created, m, st'.posted[last].created, last))
            && (reader in st'.db.rows ==>
                  || st'.db.rows[reader].last in Accepted(st, ops, reader)
                  || (reader in st.db.rows && st'.db.rows[reader].last == st.db.rows[reader].last))
    decreases |ops|
  {
    hide Inv;
    if ops == [] {
      Reflexive(st, reader);
    } else {
      var st1 := Apply(st, ops[0]);
      var st' := Run(st1, ops[1..]);
      ApplyInv(st, ops[0]);
      StepRises(st, ops[0], reader);
      PositionIsTheGreatest(st1, ops[1..], reader);
      NoLaterTransitive(st, st1, st', reader);
    }
  }

  lemma Reflexive(st: State, reader: Reader)
    requires Inv(st)
    ensures NoLater(st, st, reader)
  {
  }

  /**
    An update is answered exactly if the caller takes part in the channel and the message is there. It is
    stored unless the position is at a message that still exists and is at or after the target.
  */
  lemma UpdateOutcome(db: Db, reader: Reader, target: MessageID, participant: bool, now: Time)
    ensures var (db', answer) := Update(db, reader, target, participant, now);
            && (answer.Ok? <==> participant && target in db.messages && db.messages[target].channel == reader.channel)
            && (answer.Err? ==> answer.error == NotFound && db' == db)
            && (answer.Ok? ==>
                  var t := db.messages[target].created;
                  var reached :=
                    && reader in db.rows && db.rows[reader].last in db.messages
                    && var last := db.rows[reader].last; var u := db.messages[last].created;
                       t < u || (t == u && target <= last);
                  && (answer.value.changed <==> !reached)
                  && (reached ==> db' == db && answer.value.state == db.rows[reader])
                  && (!reached ==>
                        && db'.messages == db.messages && db'.rows.Keys == db.rows.Keys + {reader}
                        && db'.rows[reader] == ReadState(target, now) == answer.value.state
                        && forall other | other in db.rows && other != reader :: db'.rows[other] == db.rows[other]))
  {
  }

  /** The answer says changed exactly when the stored position is another one than before. */
  lemma ChangedIffStored(st: State, reader: Reader, target: MessageID, participant: bool, now: Time)
    requires Inv(st) && Update(st.db, reader, target, participant, now).1.Ok?
    ensures var (db', answer) := Update(st.db, reader, target, participant, now);
            && reader in db'.rows && answer.value.state == db'.rows[reader]
            && (answer.value.changed <==> reader !in st.db.rows || db'.rows[reader].last != st.db.rows[reader].last)
            && (!answer.value.changed ==> db' == st.db)
            && (forall other | other != reader :: other in db'.rows <==> other in st.db.rows)
            && (forall other | other != reader && other in st.db.rows :: db'.rows[other] == st.db.rows[other])
  {
  }

  /** An update moves a position back exactly when its message was deleted and the target is earlier. */
  lemma BackwardIffDeleted(st: State, reader: Reader, target: MessageID, participant: bool, now: Time)
    requires Inv(st) && reader in st.db.rows && Update(st.db, reader, target, participant, now).1.Ok?
    ensures var last := st.db.rows[reader].last;
            var last' := Update(st.db, reader, target, participant, now).0.rows[reader].last;
            !NotAfter(st.posted[last].created, last, st.posted[last'].created, last') <==>
              && last !in st.db.messages
              && !NotAfter(st.posted[last].created, last, st.posted[target].created, target)
  {
  }

  /** So it is not true that a position never moves backward: read 2, delete 2, read 1. */
  lemma CanMoveBackward(user: ID, channel: ID)
    ensures var reader := Reader(user, channel);
            var read2 := [Post(1, Message(channel, 10)), Post(2, Message(channel, 20)), Read(reader, 2, true, 30)];
            var read1 := [Delete(2), Read(reader, 1, true, 40)];
            && Possible(Init(), read2) && Run(Init(), read2).db.rows == map[reader := ReadState(2, 30)]
            && Possible(Run(Init(), read2), read1)
            && Run(Run(Init(), read2), read1).db.rows == map[reader := ReadState(1, 40)]
  {
    var reader := Reader(user, channel);
    var read2 := [Post(1, Message(channel, 10)), Post(2, Message(channel, 20)), Read(reader, 2, true, 30)];
    var read1 := [Delete(2), Read(reader, 1, true, 40)];
    var s1 := Apply(Init(), read2[0]);
    var s2 := Apply(s1, read2[1]);
    var s3 := Apply(s2, read2[2]);
    assert Run(Init(), read2) == s3 && Possible(Init(), read2) by {
      assert Run(s2, read2[1..][1..]) == s3 && Possible(s2, read2[1..][1..]);
      assert Run(s1, read2[1..]) == s3 && Possible(s1, read2[1..]);
    }
    var s4 := Apply(s3, read1[0]);
    var s5 := Apply(s4, read1[1]);
    assert Run(s3, read1) == s5 && Possible(s3, read1) by {
      assert Run(s4, read1[1..]) == s5 && Possible(s4, read1[1..]);
    }
    assert s5.db.rows == map[reader := ReadState(1, 40)];
  }

  class ReadStore {
    var messages: map<MessageID, Message>
    var rows: map<Reader, ReadState>

    method UpdateReadState(reader: Reader, target: MessageID, participant: bool, now: Time)
      returns (answer: Result<Answer, Error>)
      modifies this`rows
      ensures (Db(messages, rows), answer) == Update(old(Db(messages, rows)), reader, target, participant, now)
    {
      if !participant || target !in messages || messages[target].channel != reader.channel {
        return Err(NotFound);
      }
      var newTime := messages[target].created;
      if reader in rows {
        var current := rows[reader];
        var currentTime := if current.last in messages then Some(messages[current.last].created) else None;
        var behind := currentTime.Some?
          && (newTime < currentTime.value || (newTime == currentTime.value && target <= current.last));
        if behind {
          return Ok(Answer(current, false));
        }
      }
      rows := rows[reader := ReadState(target, now)];
      return Ok(Answer(ReadState(target, now), true));
    }
  }
}
