/** The dispatch payloads and intent bits of internal/gateway/protocol.go. */
module GatewayProtocol {
  import opened Common

  type Intents = bv64

  const INTENT_GUILD_MESSAGES: Intents := 0x4
  const INTENT_DIRECT_MESSAGES: Intents := 0x8
  const INTENT_MESSAGE_CONTENT: Intents := 0x10

  predicate HasIntent(intents: Intents, bit: Intents) {
    intents & bit != 0
  }

  /** Setting a bit gives the intent and clearing it takes it away. */
  lemma IntentIsItsBit(intents: Intents, bit: Intents)
    requires bit != 0
    ensures HasIntent(intents | bit, bit) && !HasIntent(intents & !bit, bit)
  {
  }

  datatype Reply = Reply(id: ID, channelID: ID, author: ID, content: string, createdAt: Time, editedAt: Option<Time>)

  datatype Message = Message(
    direct: bool, id: ID, channelID: ID, author: ID, content: string, replyToMessageID: Option<ID>,
    replyTo: Option<Reply>, attachments: seq<ID>, createdAt: Time, editedAt: Option<Time>)

  datatype ReplyPayload = ReplyPayload(
    id: ID, channelID: ID, author: ID, content: Option<string>, createdAt: Time, editedAt: Option<Time>)

  datatype MessagePayload = MessagePayload(
    id: ID, channelID: ID, author: ID, content: Option<string>, replyToMessageID: Option<ID>,
    replyTo: Option<ReplyPayload>, attachments: seq<ID>, createdAt: Time, editedAt: Option<Time>)

  /** What a dispatch carries. Every payload other than a message is opaque JSON text. */
  datatype Event =
    | Ready(sessionID: ID)
    | Resumed
    | MessageEvent(name: string, payload: MessagePayload)
    | PlainEvent(name: string, json: string)

  function MessageEventPayload(message: Message, includeContent: bool): MessagePayload {
    MessagePayload(
      message.id, message.channelID, message.author,
      if includeContent then Some(message.content) else None,
      message.replyToMessageID,
      match message.replyTo
      case None => None
      case Some(r) =>
        Some(ReplyPayload(r.id, r.channelID, r.author, if includeContent then Some(r.content) else None,
                          r.createdAt, r.editedAt)),
      message.attachments, message.createdAt, message.editedAt)
  }

  /** The event shows the text of a message or of the message it answers. */
  predicate RevealsContent(event: Event) {
    event.MessageEvent? &&
    (event.payload.content.Some? || (event.payload.replyTo.Some? && event.payload.replyTo.value.content.Some?))
  }

  function MessageIntent(direct: bool): Intents {
    if direct then INTENT_DIRECT_MESSAGES else INTENT_GUILD_MESSAGES
  }

  /** One call of a publish method, apart from its recipients. */
  datatype Publication =
    | PublishMessage(name: string, message: Message)
    | PublishToIntent(intent: Intents, event: Event)
    | PublishToUser(event: Event)

  /** Only message publications build message events. */
  predicate WellFormedPublication(p: Publication) {
    p.PublishMessage? || !RevealsContent(p.event)
  }

  /** The event a session with these intents is owed by a publication, if any. */
  function EventFor(p: Publication, intents: Intents): Option<Event> {
    match p
    case PublishMessage(name, message) =>
      if !HasIntent(intents, MessageIntent(message.direct)) then None
      else Some(MessageEvent(name, MessageEventPayload(message, HasIntent(intents, INTENT_MESSAGE_CONTENT))))
    case PublishToIntent(intent, event) =>
      if HasIntent(intents, intent) then Some(event) else None
    case PublishToUser(event) => Some(event)
  }

  /** A payload is that of a message, field by field, with the texts or without them. */
  predicate Shows(payload: MessagePayload, message: Message, texts: bool) {
    && payload.id == message.id && payload.channelID == message.channelID && payload.author == message.author
    && payload.replyToMessageID == message.replyToMessageID && payload.attachments == message.attachments
    && payload.createdAt == message.createdAt && payload.editedAt == message.editedAt
    && (payload.content.Some? <==> texts) && (texts ==> payload.content.value == message.content)
    && (payload.replyTo.Some? <==> message.replyTo.Some?)
    && (payload.replyTo.Some? ==> ShowsReply(payload.replyTo.value, message.replyTo.value, texts))
  }

  predicate ShowsReply(payload: ReplyPayload, reply: Reply, texts: bool) {
    && payload.id == reply.id && payload.channelID == reply.channelID && payload.author == reply.author
    && payload.createdAt == reply.createdAt && payload.editedAt == reply.editedAt
    && (payload.content.Some? <==> texts) && (texts ==> payload.content.value == reply.content)
  }

  /**
    What a session that is a recipient must get: a message if it has the bit for direct messages
    (1 << 3) or for guild messages (1 << 2), with texts if it has the bit for content (1 << 4);
    another event if it has the bit of the event; and what is for its user in any case.
  */
  predicate IsOwed(p: Publication, intents: Intents, event: Option<Event>) {
    match p
    case PublishMessage(name, message) =>
      && (message.direct ==> (event.Some? <==> HasIntent(intents, 0x8)))
      && (!message.direct ==> (event.Some? <==> HasIntent(intents, 0x4)))
      && (event.Some? ==>
            event.value.MessageEvent? && event.value.name == name
            && Shows(event.value.payload, message, HasIntent(intents, 0x10)))
    case PublishToIntent(intent, published) =>
      (event.Some? <==> HasIntent(intents, intent)) && (event.Some? ==> event.value == published)
    case PublishToUser(published) => event == Some(published)
  }

  lemma PayloadShows(message: Message, texts: bool)
    ensures Shows(MessageEventPayload(message, texts), message, texts)
  {
  }

  lemma EventForIsOwed(p: Publication, intents: Intents)
    ensures IsOwed(p, intents, EventFor(p, intents))
  {
    hide Shows, MessageEventPayload, HasIntent;
    if p.PublishMessage? {
      PayloadShows(p.message, HasIntent(intents, INTENT_MESSAGE_CONTENT));
    }
  }

  /** A session that did not ask for message content is never owed any, nor that of a reply. */
  lemma ContentNeedsItsIntent(p: Publication, intents: Intents)
    requires WellFormedPublication(p)
    requires !HasIntent(intents, INTENT_MESSAGE_CONTENT)
    ensures EventFor(p, intents).Some? ==> !RevealsContent(EventFor(p, intents).value)
  {
  }
}
