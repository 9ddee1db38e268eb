/**
  The tree of channels: the channel calls of internal/chat/service.go on the rows of
  internal/chat/channels_postgres.go, with the foreign keys of the schema.
*/
module ChannelTree {
  import opened Common

  datatype Kind = Text | VoiceChannel | Category | Thread | Direct

  datatype Channel = Channel(
    guild: Option<ID>, kind: Kind, name: Option<string>, topic: Option<string>, parent: Option<ID>, position: int,
    starter: Option<ID>, directKey: Option<ID>)

  type Channels = map<ID, Channel>

  datatype Error = NotFound | Forbidden | Invalid | ThreadExists

  /** Who the caller is to the channel or guild: one of its participants, and with the permission needed. */
  datatype Caller = Caller(participant: bool, permitted: bool)

  datatype Call =
    | CreateChannel(id: ID, guild: ID, kind: Kind, name: string, topic: Option<string>, parent: Option<ID>)
    | UpdateChannel(id: ID, newName: Option<string>, newTopic: Option<Option<string>>, newPosition: Option<int>,
                    newParent: Option<Option<ID>>)
    | DeleteChannel(id: ID)
    | CreateThread(id: ID, under: ID, name: string, message: Option<ID>, messageExists: bool)
    | OpenDirect(id: ID, key: ID, withSelf: bool, recipientExists: bool)
    | DeleteGuild(guild: ID)
    | DeleteMessage(starter: ID)

  /** checkCategory; a member of the guild sees all of its channels. */
  predicate IsCategoryOf(cs: Channels, parent: ID, guild: ID) {
    parent in cs && cs[parent].kind == Category && cs[parent].guild == Some(guild)
  }

  /** One more than the greatest position in the guild, threads aside. */
  ghost predicate NextPosition(cs: Channels, guild: ID, position: int) {
    && (forall c | c in cs && cs[c].guild == Some(guild) && cs[c].kind != Thread :: cs[c].position < position)
    && (position == 0 || exists c | c in cs :: cs[c].guild == Some(guild) && cs[c].kind != Thread && cs[c].position + 1 == position)
  }

  function CreatedChannel(cs: Channels, c: Call, caller: Caller, position: int): Result<Channels, Error>
    requires c.CreateChannel?
  {
    if !caller.participant then Err(NotFound)
    else if !caller.permitted then Err(Forbidden)
    else if c.kind != Text && c.kind != VoiceChannel && c.kind != Category then Err(Invalid)
    else if c.kind != Text && c.topic.Some? then Err(Invalid)
    else if c.parent.Some? && (c.kind == Category || !IsCategoryOf(cs, c.parent.value, c.guild)) then Err(Invalid)
    else Ok(cs[c.id := Channel(Some(c.guild), c.kind, Some(c.name), c.topic, c.parent, position, None, None)])
  }

  function Edited(row: Channel, c: Call): Channel
    requires c.UpdateChannel?
  {
    row.(name := if c.newName.Some? then c.newName else row.name,
         topic := if c.newTopic.Some? then c.newTopic.value else row.topic,
         position := if c.newPosition.Some? then c.newPosition.value else row.position,
         parent := if c.newParent.Some? then c.newParent.value else row.parent)
  }

  function UpdatedChannel(cs: Channels, c: Call, caller: Caller): Result<Channels, Error>
    requires c.UpdateChannel?
  {
    if c.newName.None? && c.newTopic.None? && c.newPosition.None? && c.newParent.None? then Err(Invalid)
    else if !caller.participant || c.id !in cs then Err(NotFound)
    else
      var row := cs[c.id];
      if row.guild.None? || !caller.permitted then Err(Forbidden)
      else if row.kind == Thread && (c.newTopic.Some? || c.newPosition.Some? || c.newParent.Some?) then Err(Invalid)
      else if c.newTopic.Some? && c.newTopic.value.Some? && row.kind != Text then Err(Invalid)
      else if c.newPosition.Some? && c.newPosition.value < 0 then Err(Invalid)
      else if c.newParent.Some? && c.newParent.value.Some?
              && (row.kind == Category || !IsCategoryOf(cs, c.newParent.value.value, row.guild.value)) then Err(Invalid)
      else Ok(cs[c.id := Edited(row, c)])
  }

  /** The row after ON DELETE SET NULL of its parent. */
  function Orphaned(row: Channel, gone: ID): Channel {
    if row.parent == Some(gone) then row.(parent := None) else row
  }

  /** The statement of DeleteChannel, and what the foreign key does. */
  function Without(cs: Channels, id: ID): Channels {
    map c | c in cs && c != id && !(cs[c].parent == Some(id) && cs[c].kind == Thread) :: Orphaned(cs[c], id)
  }

  function DeletedChannel(cs: Channels, id: ID, caller: Caller): Result<Channels, Error> {
    if !caller.participant || id !in cs then Err(NotFound)
    else if cs[id].guild.None? || !caller.permitted then Err(Forbidden)
    else Ok(Without(cs, id))
  }

  predicate HasStarter(cs: Channels, message: ID) {
    exists c | c in cs :: cs[c].starter == Some(message)
  }

  function CreatedThread(cs: Channels, c: Call, caller: Caller): Result<Channels, Error>
    requires c.CreateThread?
  {
    if !caller.participant || c.under !in cs || cs[c.under].kind != Text || cs[c.under].guild.None? then Err(NotFound)
    else if !caller.permitted then Err(Forbidden)
    else if c.message.Some? && !c.messageExists then Err(NotFound)
    else if c.message.Some? && HasStarter(cs, c.message.value) then Err(ThreadExists)
    else Ok(cs[c.id := Channel(cs[c.under].guild, Thread, Some(c.name), None, Some(c.under), 0, c.message, None)])
  }

  predicate HasDirect(cs: Channels, key: ID) {
    exists c | c in cs :: cs[c].directKey == Some(key)
  }

  /** OpenDirectChannel: ON CONFLICT (dm_key) DO NOTHING. The key is made of the two users. */
  function OpenedDirect(cs: Channels, id: ID, key: ID): Channels {
    if HasDirect(cs, key) then cs else cs[id := Channel(None, Direct, None, None, None, 0, None, Some(key))]
  }

  /** The cascade from a guild to its channels. */
  function WithoutGuild(cs: Channels, guild: ID): Channels {
    map c | c in cs && cs[c].guild != Some(guild) :: cs[c]
  }

  /** ON DELETE SET NULL of a starter message. */
  function WithoutMessage(cs: Channels, message: ID): Channels {
    map c | c in cs :: if cs[c].starter == Some(message) then cs[c].(starter := None) else cs[c]
  }

  function Act(cs: Channels, c: Call, caller: Caller, position: int): Result<Channels, Error> {
    match c
    case CreateChannel(_, _, _, _, _, _) => CreatedChannel(cs, c, caller, position)
    case UpdateChannel(_, _, _, _, _) => UpdatedChannel(cs, c, caller)
    case DeleteChannel(id) => DeletedChannel(cs, id, caller)
    case CreateThread(_, _, _, _, _) => CreatedThread(cs, c, caller)
    case OpenDirect(id, key, withSelf, recipientExists) =>
      if withSelf then Err(Invalid) else if !recipientExists then Err(NotFound) else Ok(OpenedDirect(cs, id, key))
    case DeleteGuild(guild) => Ok(WithoutGuild(cs, guild))
    case DeleteMessage(message) => Ok(WithoutMessage(cs, message))
  }

  // ---------- The shape of the tree ----------

  predicate InGuildOf(cs: Channels, row: Channel, kind: Kind) {
    row.parent.Some? && row.parent.value in cs && cs[row.parent.value].kind == kind
    && cs[row.parent.value].guild == row.guild
  }

  predicate WellPlaced(cs: Channels, row: Channel) {
    && (row.guild.None? <==> row.kind == Direct) && (row.directKey.Some? <==> row.kind == Direct)
    && (row.topic.Some? ==> row.kind == Text) && row.position >= 0
    && match row.kind
       case Thread => InGuildOf(cs, row, Text)
       case Text => row.parent.None? || InGuildOf(cs, row, Category)
       case VoiceChannel => row.parent.None? || InGuildOf(cs, row, Category)
       case Category => row.parent.None?
       case Direct => row.parent.None?
  }

  ghost predicate Tree(cs: Channels) {
    forall c | c in cs :: WellPlaced(cs, cs[c])
  }

  ghost predicate OneThreadPerMessage(cs: Channels) {
    forall c, d | c in cs && d in cs && cs[c].starter.Some? && cs[c].starter == cs[d].starter :: c == d
  }

  ghost predicate OneDirectPerPair(cs: Channels) {
    forall c, d | c in cs && d in cs && cs[c].directKey.Some? && cs[c].directKey == cs[d].directKey :: c == d
  }

  ghost predicate Inv(cs: Channels) {
    Tree(cs) && OneThreadPerMessage(cs) && OneDirectPerPair(cs)
  }

  /** A new row has a fresh ID, and a new channel goes to the end of its guild. */
  ghost predicate Enabled(cs: Channels, c: Call, position: int) {
    && ((c.CreateChannel? || c.CreateThread? || c.OpenDirect?) ==> c.id !in cs)
    && (c.CreateChannel? ==> NextPosition(cs, c.guild, position))
  }

  /** Adding a row, or editing one without changing its kind or guild. */
  lemma StoreKeepsTree(cs: Channels, id: ID, row: Channel)
    requires Tree(cs) && WellPlaced(cs, row)
    requires id in cs ==> row.kind == cs[id].kind && row.guild == cs[id].guild
    ensures Tree(cs[id := row])
  {
  }

  lemma DeleteKeepsTree(cs: Channels, id: ID)
    requires Tree(cs) && id in cs
    ensures Tree(Without(cs, id))
  {
    var cs' := Without(cs, id);
    forall c | c in cs'
      ensures WellPlaced(cs', cs'[c])
    {
      assert WellPlaced(cs, cs[c]);
      if cs'[c].parent.Some? {
        assert WellPlaced(cs, cs[cs[c].parent.value]);
      }
    }
  }

  lemma DeleteGuildKeepsTree(cs: Channels, guild: ID)
    requires Tree(cs)
    ensures Tree(WithoutGuild(cs, guild))
  {
  }

  lemma DeleteMessageKeepsTree(cs: Channels, message: ID)
    requires Tree(cs)
    ensures Tree(WithoutMessage(cs, message))
  {
    forall c | c in cs
      ensures WellPlaced(WithoutMessage(cs, message), WithoutMessage(cs, message)[c])
    {
      assert WellPlaced(cs, cs[c]);
    }
  }

  lemma ActKeepsTree(cs: Channels, c: Call, caller: Caller, position: int)
    requires Tree(cs) && Enabled(cs, c, position)
    ensures Act(cs, c, caller, position).Ok? ==> Tree(Act(cs, c, caller, position).value)
  {
    hide Tree;
    if Act(cs, c, caller, position).Ok? {
      match c
      case CreateChannel(id, guild, _, _, _, _) =>
        NextIsNotNegative(cs, guild, position);
        StoreKeepsTree(cs, id, Act(cs, c, caller, position).value[id]);
      case UpdateChannel(id, _, _, _, _) =>
        RowIsPlaced(cs, id);
        StoreKeepsTree(cs, id, Edited(cs[id], c));
      case DeleteChannel(id) =>
        DeleteKeepsTree(cs, id);
      case CreateThread(id, _, _, _, _) =>
        StoreKeepsTree(cs, id, Act(cs, c, caller, position).value[id]);
      case OpenDirect(id, key, _, _) =>
        StoreKeepsTree(cs, id, Channel(None, Direct, None, None, None, 0, None, Some(key)));
      case DeleteGuild(guild) =>
        DeleteGuildKeepsTree(cs, guild);
      case DeleteMessage(message) =>
        DeleteMessageKeepsTree(cs, message);
    }
  }

  lemma NextIsNotNegative(cs: Channels, guild: ID, position: int)
    requires Tree(cs) && NextPosition(cs, guild, position)
    ensures position >= 0
  {
    if position != 0 {
      var c :| c in cs && cs[c].guild == Some(guild) && cs[c].kind != Thread && cs[c].position + 1 == position;
      assert WellPlaced(cs, cs[c]);
    }
  }

  lemma RowIsPlaced(cs: Channels, id: ID)
    requires Tree(cs) && id in cs
    ensures WellPlaced(cs, cs[id])
  {
  }

  lemma ActKeepsUnique(cs: Channels, c: Call, caller: Caller, position: int)
    requires OneThreadPerMessage(cs) && OneDirectPerPair(cs) && Enabled(cs, c, position)
    ensures var r := Act(cs, c, caller, position); r.Ok? ==> OneThreadPerMessage(r.value) && OneDirectPerPair(r.value)
  {
    hide IsCategoryOf;
    var r := Act(cs, c, caller, position);
    if r.Ok? {
      assert OneThreadPerMessage(r.value) by { hide OneDirectPerPair; }
      assert OneDirectPerPair(r.value) by { hide OneThreadPerMessage; }
    }
  }

  // ---------- Runs ----------

  datatype Request = Request(call: Call, caller: Caller, position: int)

  function Effect(cs: Channels, r: Request): Channels {
    var after := Act(cs, r.call, r.caller, r.position);
    if after.Ok? then after.value else cs
  }

  ghost predicate Possible(cs: Channels, requests: seq<Request>)
    decreases |requests|
  {
    requests == [] || (Enabled(cs, requests[0].call, requests[0].position) && Possible(Effect(cs, requests[0]), requests[1..]))
  }

  function Run(cs: Channels, requests: seq<Request>): Channels
    decreases |requests|
  {
    if requests == [] then cs else Run(Effect(cs, requests[0]), requests[1..])
  }

  lemma {:induction false} RunKeeps(cs: Channels, requests: seq<Request>)
    requires Inv(cs) && Possible(cs, requests)
    ensures Inv(Run(cs, requests))
    decreases |requests|
  {
    hide Tree, OneThreadPerMessage, OneDirectPerPair, Act, Enabled;
    if requests != [] {
      var r := requests[0];
      ActKeepsTree(cs, r.call, r.caller, r.position);
      ActKeepsUnique(cs, r.call, r.caller, r.position);
      RunKeeps(Effect(cs, r), requests[1..]);
    }
  }

  /** Each channel of the path is the parent of the one before it. */
  predicate IsPath(cs: Channels, path: seq<ID>) {
    && (forall i | 0 <= i < |path| :: path[i] in cs)
    && forall i | 0 < i < |path| :: cs[path[i - 1]].parent == Some(path[i])
  }

  function Height(kind: Kind): nat {
    match kind
    case Thread => 0
    case Text => 1
    case VoiceChannel => 1
    case Category => 2
    case Direct => 2
  }

  lemma {:induction false} PathsRise(cs: Channels, path: seq<ID>, i: nat)
    requires Tree(cs) && IsPath(cs, path) && i < |path|
    ensures Height(cs[path[0]].kind) + i <= Height(cs[path[i]].kind)
    decreases i
  {
    if i > 0 {
      PathsRise(cs, path, i - 1);
      assert WellPlaced(cs, cs[path[i - 1]]);
    }
  }

  /**
    After any calls from an empty table, every thread hangs under a text channel of its guild, text and
    voice channels under nothing or a category of their guild, and nothing else has a parent.
  */
  lemma ParentsAreRight(requests: seq<Request>, c: ID)
    requires Possible(map[], requests) && c in Run(map[], requests)
    ensures WellPlaced(Run(map[], requests), Run(map[], requests)[c])
  {
    RunKeeps(map[], requests);
  }

  /** So the parents form a forest of at most three levels: no path is longer, and none meets itself. */
  lemma AtMostThreeLevels(requests: seq<Request>, path: seq<ID>)
    requires Possible(map[], requests) && IsPath(Run(map[], requests), path)
    ensures |path| <= 3
    ensures forall i, j | 0 <= i < j < |path| :: path[i] != path[j]
  {
    var cs := Run(map[], requests);
    RunKeeps(map[], requests);
    if |path| > 0 {
      PathsRise(cs, path, |path| - 1);
    }
    forall i, j | 0 <= i < j < |path|
      ensures path[i] != path[j]
    {
      PathsRise(cs, path[i..], j - i);
    }
  }

  /** One thread per starter message and one direct channel per pair. */
  lemma NoTwins(requests: seq<Request>)
    requires Possible(map[], requests)
    ensures OneThreadPerMessage(Run(map[], requests)) && OneDirectPerPair(Run(map[], requests))
  {
    RunKeeps(map[], requests);
  }

  /** Deleting a channel takes its threads with it and nothing else; what it held is kept, without a parent. */
  lemma DeletionIsExact(cs: Channels, id: ID, c: ID)
    requires Tree(cs) && id in cs && c in cs
    ensures c in Without(cs, id) <==> c != id && !(cs[c].kind == Thread && cs[c].parent == Some(id))
    ensures c in Without(cs, id) ==>
              && Without(cs, id)[c].parent == (if cs[c].parent == Some(id) then None else cs[c].parent)
              && Without(cs, id)[c].(parent := cs[c].parent) == cs[c]
    ensures c in Without(cs, id) && cs[c].parent == Some(id) ==> cs[id].kind == Category
  {
    assert WellPlaced(cs, cs[c]);
  }

  // ---------- When calls succeed, and what they do ----------

  /** One row was stored, and every other one is as it was. */
  predicate OnlyRow(cs: Channels, cs': Channels, id: ID) {
    cs'.Keys == cs.Keys + {id} && forall other | other in cs && other != id :: cs'[other] == cs[other]
  }

  predicate MayHold(cs: Channels, parent: Option<ID>, guild: ID, kind: Kind) {
    parent.Some? ==>
      && kind != Category && parent.value in cs && cs[parent.value].kind == Category
      && cs[parent.value].guild == Some(guild)
  }

  lemma CreateChannelOutcome(cs: Channels, c: Call, caller: Caller, position: int)
    requires c.CreateChannel?
    ensures var r := Act(cs, c, caller, position);
            && (r.Ok? <==>
                  && caller.participant && caller.permitted && c.kind in {Text, VoiceChannel, Category}
                  && (c.topic.Some? ==> c.kind == Text) && MayHold(cs, c.parent, c.guild, c.kind))
            && (r == Err(NotFound) <==> !caller.participant)
            && (r == Err(Forbidden) <==> caller.participant && !caller.permitted) && r != Err(ThreadExists)
            && (r.Ok? ==>
                  && OnlyRow(cs, r.value, c.id)
                  && var row := r.value[c.id];
                     && row.guild == Some(c.guild) && row.kind == c.kind && row.name == Some(c.name) && row.topic == c.topic
                     && row.parent == c.parent && row.position == position && row.starter.None? && row.directKey.None?)
  {
  }

  /** A successful edit stores each field that was given, and keeps the others and every other row. */
  lemma UpdateChannelOutcome(cs: Channels, c: Call, caller: Caller, position: int)
    requires c.UpdateChannel?
    ensures var r := Act(cs, c, caller, position);
            var empty := c.newName.None? && c.newTopic.None? && c.newPosition.None? && c.newParent.None?;
            && (r.Ok? <==>
                  && !empty && caller.participant && c.id in cs && cs[c.id].guild.Some? && caller.permitted
                  && (cs[c.id].kind == Thread ==> c.newTopic.None? && c.newPosition.None? && c.newParent.None?)
                  && (c.newTopic.Some? && c.newTopic.value.Some? ==> cs[c.id].kind == Text)
                  && (c.newPosition.Some? ==> c.newPosition.value >= 0)
                  && (c.newParent.Some? ==> MayHold(cs, c.newParent.value, cs[c.id].guild.value, cs[c.id].kind)))
            && (r == Err(NotFound) <==> !empty && (!caller.participant || c.id !in cs))
            && (r == Err(Forbidden) <==>
                  !empty && caller.participant && c.id in cs && (cs[c.id].guild.None? || !caller.permitted))
            && r != Err(ThreadExists)
            && (r.Ok? ==>
                  && OnlyRow(cs, r.value, c.id)
                  && var row, was := r.value[c.id], cs[c.id];
                     && (if c.newName.Some? then row.name == c.newName else row.name == was.name)
                     && (if c.newTopic.Some? then row.topic == c.newTopic.value else row.topic == was.topic)
                     && (if c.newPosition.Some? then row.position == c.newPosition.value else row.position == was.position)
                     && (if c.newParent.Some? then row.parent == c.newParent.value else row.parent == was.parent)
                     && row.guild == was.guild && row.kind == was.kind && row.starter == was.starter
                     && row.directKey == was.directKey)
  {
  }

  lemma DeleteChannelOutcome(cs: Channels, id: ID, caller: Caller, position: int, c: ID)
    ensures var r := Act(cs, DeleteChannel(id), caller, position);
            && (r.Ok? <==> caller.participant && id in cs && cs[id].guild.Some? && caller.permitted)
            && (r == Err(NotFound) <==> !caller.participant || id !in cs) && (r.Err? ==> r.error in {NotFound, Forbidden})
            && (r.Ok? ==>
                  && (c in r.value <==> c in cs && c != id && !(cs[c].kind == Thread && cs[c].parent == Some(id)))
                  && (c in r.value ==>
                        && r.value[c].parent == (if cs[c].parent == Some(id) then None else cs[c].parent)
                        && r.value[c].(parent := cs[c].parent) == cs[c]))
  {
  }

  /** A thread hangs under the text channel it was started in, from a message that exists and has none yet. */
  lemma CreateThreadOutcome(cs: Channels, c: Call, caller: Caller, position: int)
    requires c.CreateThread?
    ensures var r := Act(cs, c, caller, position);
            var under := caller.participant && c.under in cs && cs[c.under].kind == Text && cs[c.under].guild.Some?;
            var taken := c.message.Some? && exists d | d in cs :: cs[d].starter == c.message;
            && (r.Ok? <==> under && caller.permitted && (c.message.Some? ==> c.messageExists) && !taken)
            && (r == Err(Forbidden) <==> under && !caller.permitted)
            && (r == Err(ThreadExists) <==> under && caller.permitted && c.messageExists && taken)
            && r != Err(Invalid)
            && (r.Ok? ==>
                  && OnlyRow(cs, r.value, c.id)
                  && var row := r.value[c.id];
                     && row.guild == cs[c.under].guild && row.kind == Thread && row.name == Some(c.name) && row.topic.None?
                     && row.parent == Some(c.under) && row.position == 0 && row.starter == c.message && row.directKey.None?)
  {
  }

  /**
    With another user who exists there is a direct channel afterwards: the one there was, or a new one
    without any other change.
  */
  lemma OpenDirectOutcome(cs: Channels, c: Call, caller: Caller, position: int)
    requires c.OpenDirect? && c.id !in cs
    ensures var r := Act(cs, c, caller, position);
            var known := exists d | d in cs :: cs[d].directKey == Some(c.key);
            && (r.Ok? <==> !c.withSelf && c.recipientExists) && (r.Err? ==> r.error == if c.withSelf then Invalid else NotFound)
            && (r.Ok? ==>
                  if known then r.value == cs
                  else
                    && OnlyRow(cs, r.value, c.id)
                    && var row := r.value[c.id];
                       && row.kind == Direct && row.directKey == Some(c.key) && row.guild.None? && row.parent.None?
                       && row.name.None? && row.topic.None? && row.starter.None? && row.position == 0)
  {
  }

  /** A guild takes its channels with it, and a message is no thread's starter any more. */
  lemma CascadeOutcome(cs: Channels, gone: ID, caller: Caller, position: int, c: ID)
    ensures var r := Act(cs, DeleteGuild(gone), caller, position);
            && r.Ok? && (c in r.value <==> c in cs && cs[c].guild != Some(gone)) && (c in r.value ==> r.value[c] == cs[c])
    ensures var r := Act(cs, DeleteMessage(gone), caller, position);
            && r.Ok? && (c in r.value <==> c in cs)
            && (c in cs ==>
                  && r.value[c].starter == (if cs[c].starter == Some(gone) then None else cs[c].starter)
                  && r.value[c].(starter := cs[c].starter) == cs[c])
  {
  }

  // ---------- The rows ----------

  class ChannelStore {
    var channels: Channels

    ghost predicate Outcome(before: Channels, c: Call, caller: Caller, position: int, err: Option<Error>)
      reads this
    {
      match Act(before, c, caller, position)
      case Ok(after) => err.None? && channels == after
      case Err(e) => err == Some(e) && channels == before
    }

    constructor ()
      ensures channels == map[]
    {
      channels := map[];
    }

    /** COALESCE(MAX(position), -1) + 1 */
    method MaxPosition(guild: ID) returns (next: int)
      requires Tree(channels)
      ensures NextPosition(channels, guild, next)
    {
      assert forall c | c in channels :: WellPlaced(channels, channels[c]);
      next := 0;
      var pending := channels.Keys;
      while pending != {}
        invariant pending <= channels.Keys
        invariant forall c | c in channels && c !in pending && channels[c].guild == Some(guild) && channels[c].kind != Thread ::
          channels[c].position < next
        invariant next == 0 || exists c | c in channels ::
          channels[c].guild == Some(guild) && channels[c].kind != Thread && channels[c].position + 1 == next
        decreases pending
      {
        var c :| c in pending;
        if channels[c].guild == Some(guild) && channels[c].kind != Thread && channels[c].position >= next {
          next := channels[c].position + 1;
        }
        pending := pending - {c};
      }
    }

    method CreateChannel(id: ID, guild: ID, kind: Kind, name: string, topic: Option<string>, parent: Option<ID>, caller: Caller)
      returns (err: Option<Error>, position: int)
      requires Tree(channels)
      modifies this
      ensures Outcome(old(channels), Call.CreateChannel(id, guild, kind, name, topic, parent), caller, position, err)
      ensures NextPosition(old(channels), guild, position)
    {
      position := MaxPosition(guild);
      if !caller.participant {
        return Some(NotFound), position;
      }
      if !caller.permitted {
        return Some(Forbidden), position;
      }
      if kind != Text && kind != VoiceChannel && kind != Category {
        return Some(Invalid), position;
      }
      if kind != Text && topic.Some? {
        return Some(Invalid), position;
      }
      if parent.Some? {
        if kind == Category {
          return Some(Invalid), position;
        }
        if !IsCategoryOf(channels, parent.value, guild) {
          return Some(Invalid), position;
        }
      }
      channels := channels[id := Channel(Some(guild), kind, Some(name), topic, parent, position, None, None)];
      return None, position;
    }

    method UpdateChannel(id: ID, name: Option<string>, topic: Option<Option<string>>, position: Option<int>,
                         parent: Option<Option<ID>>, caller: Caller)
      returns (err: Option<Error>)
      modifies this
      ensures Outcome(old(channels), Call.UpdateChannel(id, name, topic, position, parent), caller, 0, err)
    {
      if name.None? && topic.None? && position.None? && parent.None? {
        return Some(Invalid);
      }
      if !caller.participant || id !in channels {
        return Some(NotFound);
      }
      var row := channels[id];
      if row.guild.None? || !caller.permitted {
        return Some(Forbidden);
      }
      if row.kind == Thread && (topic.Some? || position.Some? || parent.Some?) {
        return Some(Invalid);
      }
      if topic.Some? && topic.value.Some? && row.kind != Text {
        return Some(Invalid);
      }
      if position.Some? && position.value < 0 {
        return Some(Invalid);
      }
      if parent.Some? && parent.value.Some? {
        if row.kind == Category || !IsCategoryOf(channels, parent.value.value, row.guild.value) {
          return Some(Invalid);
        }
      }
      if name.Some? {
        row := row.(name := name);
      }
      if topic.Some? {
        row := row.(topic := topic.value);
      }
      if position.Some? {
        row := row.(position := position.value);
      }
      if parent.Some? {
        row := row.(parent := parent.value);
      }
      channels := channels[id := row];
      return None;
    }

    /** The rows go one statement at a time: the channel with its threads, then the references to it. */
    method DeleteChannel(id: ID, caller: Caller) returns (err: Option<Error>)
      modifies this
      ensures Outcome(old(channels), Call.DeleteChannel(id), caller, 0, err)
    {
      if !caller.participant || id !in channels {
        return Some(NotFound);
      }
      if channels[id].guild.None? || !caller.permitted {
        return Some(Forbidden);
      }
      var gone := set c | c in channels && (c == id || (channels[c].parent == Some(id) && channels[c].kind == Thread));
      channels := channels - gone;
      channels := map c | c in channels :: Orphaned(channels[c], id);
      assert channels == Without(old(channels), id);
      return None;
    }

    method CreateThread(id: ID, under: ID, name: string, message: Option<ID>, messageExists: bool, caller: Caller)
      returns (err: Option<Error>)
      modifies this
      ensures Outcome(old(channels), Call.CreateThread(id, under, name, message, messageExists), caller, 0, err)
    {
      if !caller.participant || under !in channels || channels[under].kind != Text || channels[under].guild.None? {
        return Some(NotFound);
      }
      if !caller.permitted {
        return Some(Forbidden);
      }
      if message.Some? && !messageExists {
        return Some(NotFound);
      }
      if message.Some? && exists c | c in channels :: channels[c].starter == message {
        return Some(ThreadExists);
      }
      channels := channels[id := Channel(channels[under].guild, Thread, Some(name), None, Some(under), 0, message, None)];
      return None;
    }
  }
}
