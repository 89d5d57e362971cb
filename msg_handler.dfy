/** TelegramMsgHandler: a registered callback with an id and the message type it expects. */
module MsgHandlers {
  import opened Common
  import opened BotUsers

  /** The message type a handler expects unless told otherwise. */
  const TextType: string := "text"

  /** `id` names the handler; `handler` is the application's callback, opaque here;
      `expectedType` is the only message type the handler is meant to receive. */
  datatype Handler = Handler(id: string, handler: Ref, expectedType: string)

  /** One call of a handler's callback: the callback, the chat the message came from, the parameters,
      the sending user (null for an unknown sender of `/start`) and the fourth argument, `type`
      (None when the callback was called with three arguments). */
  datatype Invocation = Call(callback: Ref, chatID: ChatId, parms: seq<Parm>, user: User?, msgType: Option<string>)

  /** The constructor `new TelegramMsgHandler({ id, handler, expectedType = 'text' })`:
      id and callback are stored as given, an omitted type becomes "text". */
  function NewHandler(id: string, handler: Ref, expectedType: Option<string> := None): (h: Handler)
    ensures h.id == id && h.handler == handler
    ensures expectedType.None? ==> h.expectedType == TextType
    ensures expectedType.Some? ==> h.expectedType == expectedType.value
  {
    Handler(id, handler, expectedType.GetOr(TextType))
  }

  /** `execute(msg, parms, user, type = 'text')`: forwards to the callback with all four arguments,
      the type defaulting to "text". */
  function Execute(h: Handler, chatID: ChatId, parms: seq<Parm>, user: User?, msgType: Option<string> := None): (inv: Invocation)
    ensures inv.callback == h.handler && inv.chatID == chatID && inv.parms == parms && inv.user == user
    ensures inv.msgType.Some?
    ensures inv.msgType.value == if msgType.Some? then msgType.value else TextType
  {
    Call(h.handler, chatID, parms, user, Some(msgType.GetOr(TextType)))
  }

  /** A handler is to run only for messages of the type it expects. */
  predicate Accepts(h: Handler, msgType: string) {
    h.expectedType == msgType
  }

  /** A handler built without a type accepts text and nothing else; executing it without a type
      tells the callback "text". */
  lemma DefaultHandlerIsText(id: string, handler: Ref, chatID: ChatId, parms: seq<Parm>, user: User?, other: string)
    requires other != TextType
    ensures Accepts(NewHandler(id, handler), TextType) && !Accepts(NewHandler(id, handler), other)
    ensures Execute(NewHandler(id, handler), chatID, parms, user).msgType == Some(TextType)
  {
  }
}
