/** The decisions the wrapper takes for one incoming message: the command route (the closure
    registered by `addCommand`) and the route of everything else (`nonCommandHandler`). Each is a
    function from the bot's registries and the message to the one thing that happens. */
module Routing {
  import opened Common
  import opened Messages
  import opened Parms
  import opened UserContexts
  import opened BotUsers
  import opened MsgHandlers
  import opened Commands
  import opened Lookups
  import opened Matching

  /** The command only unknown users may send. */
  const StartCommand: string := "start"

  /** What one message leads to: a reply sent to the chat, one handler call, nothing, or an
      exception that the route's `catch` swallows (after logging it). */
  datatype Outcome =
    | Replied(chatID: ChatId, text: string)
    | Invoked(call: Invocation)
    | NoEffect
    | Errored

  /** `if(reply !== null) sendMessage(chatID, reply)`. */
  function ReplyIfSet(reply: Option<string>, chatID: ChatId): (o: Outcome)
    ensures reply.Some? <==> o.Replied?
    ensures reply.Some? ==> o == Replied(chatID, reply.value)
    ensures reply.None? ==> o == NoEffect
  {
    match reply
    case Some(text) => Replied(chatID, text)
    case None => NoEffect
  }

  /** The command route for a message from `chatID` whose text matched `cmd`'s pattern with
      `matches`. Unknown senders get only `/start`, known senders everything but `/start`; the
      handler is chosen by parameter count and runs only if registered and expecting text. Its
      callback is called directly, with three arguments, and no user context is consulted. */
  function CommandOutcome(
    users: seq<User>, handlers: seq<Handler>, unknownReply: Option<string>, alreadyKnownReply: Option<string>,
    cmd: Command, chatID: ChatId, matches: seq<Option<string>>): Outcome
  {
    var user := FindUser(users, chatID);
    if user == null && cmd.command != StartCommand then ReplyIfSet(unknownReply, chatID)
    else if user != null && cmd.command == StartCommand then ReplyIfSet(alreadyKnownReply, chatID)
    else
      var parms := TextParms(matches);
      match SelectHandlerID(cmd.msgHandlerIDs, |parms|)
      // `msgHandlerIDs[-1]` is undefined; handlers in this model always have an id.
      case None => NoEffect
      case Some(id) =>
        match FindHandler(handlers, id)
        case None => NoEffect
        case Some(h) =>
          if h.expectedType == TextType then Invoked(Call(h.handler, chatID, parms, user, None)) else NoEffect
  }

  /** The route of a message that is not a command, from `chatID`, whose sender's context fields
      are `s` when the sender is known, read at time `now`. As written, a live context whose handler
      is registered leads to the comparison with the undeclared identifier `type`
      (TelegramBotWrapper.js:74): a ReferenceError, caught and logged, so the context's handler never
      runs. Without a live context the default handler runs with the message type as its fourth
      argument, whatever type it expects. */
  function NonCommandOutcome(
    users: seq<User>, s: ContextState, handlers: seq<Handler>, defaultHandler: Option<string>,
    unknownReply: Option<string>, chatID: ChatId, payload: Payload, now: int): Outcome
    requires Consistent(s)
  {
    var user := FindUser(users, chatID);
    if user == null then ReplyIfSet(unknownReply, chatID)
    else if HasContextAt(s, now) then
      match FindHandler(handlers, ContextAt(s, now).value.nextMsgHandlerID)
      case Some(_) => Errored
      case None => NoEffect
    else if defaultHandler.None? then NoEffect
    else
      match FindHandler(handlers, defaultHandler.value)
      case Some(h) => Invoked(Execute(h, chatID, ParmsOf(payload), user, Some(TypeName(payload))))
      case None => NoEffect
  }

  /** Command gating: an unknown sender of any command but `/start` gets at most the unknown-user
      reply, a known sender of `/start` at most the already-known reply, and in neither case does a
      handler run. The command route never ends in an exception. */
  lemma CommandGating(
    users: seq<User>, handlers: seq<Handler>, unknownReply: Option<string>, alreadyKnownReply: Option<string>,
    cmd: Command, chatID: ChatId, matches: seq<Option<string>>)
    ensures var o := CommandOutcome(users, handlers, unknownReply, alreadyKnownReply, cmd, chatID, matches);
      !o.Errored? &&
      (FindUser(users, chatID) == null && cmd.command != StartCommand ==> o == ReplyIfSet(unknownReply, chatID)) &&
      (FindUser(users, chatID) != null && cmd.command == StartCommand ==> o == ReplyIfSet(alreadyKnownReply, chatID)) &&
      (o.Invoked? ==> (FindUser(users, chatID) == null <==> cmd.command == StartCommand))
  {
  }

  /** Handler selection on the command route, both ways: a handler runs exactly when the sender
      passes the gate, the id chosen by parameter count names a registered handler, and that handler
      expects text; it then receives the text parameters, the sender (null for an unknown sender of
      `/start`) and no type. */
  lemma CommandInvocation(
    users: seq<User>, handlers: seq<Handler>, unknownReply: Option<string>, alreadyKnownReply: Option<string>,
    cmd: Command, chatID: ChatId, matches: seq<Option<string>>)
    ensures var o := CommandOutcome(users, handlers, unknownReply, alreadyKnownReply, cmd, chatID, matches);
      var user := FindUser(users, chatID);
      var id := SelectHandlerID(cmd.msgHandlerIDs, |TextParms(matches)|);
      o.Invoked? <==>
        (user == null <==> cmd.command == StartCommand) && cmd.msgHandlerIDs != [] &&
        FindHandler(handlers, id.value).Some? && FindHandler(handlers, id.value).value.expectedType == TextType
    ensures var o := CommandOutcome(users, handlers, unknownReply, alreadyKnownReply, cmd, chatID, matches);
      var id := SelectHandlerID(cmd.msgHandlerIDs, |TextParms(matches)|);
      o.Invoked? ==>
        id.Some? && o.call == Call(FindHandler(handlers, id.value).value.handler, chatID, TextParms(matches), FindUser(users, chatID), None)
  {
    ArityDispatch(cmd.msgHandlerIDs, |TextParms(matches)|);
  }

  /** End to end on the command route: `/cmd` followed by `k` whitespace-free arguments (no more than
      the command's parameter count) selects the handler id at position `k` of the command's list
      (the last one when `k` reaches it), and that handler, when registered for text, receives exactly
      those arguments in order. */
  lemma CommandArgumentsReachHandler(
    users: seq<User>, handlers: seq<Handler>, unknownReply: Option<string>, alreadyKnownReply: Option<string>,
    cmd: Command, chatID: ChatId, args: seq<string>, tail: string)
    requires forall i :: 0 <= i < |args| ==> NoWhitespace(args[i])
    requires |args| <= cmd.numParms
    requires tail == [] || IsWhitespace(tail[0])
    requires |args| < cmd.numParms ==> tail == [] || tail[0] != ' '
    requires cmd.msgHandlerIDs != []
    requires (FindUser(users, chatID) == null) == (cmd.command == StartCommand)
    ensures var m := MatchCommand(cmd.command, cmd.numParms, "/" + cmd.command + Join(args) + tail);
      var i := if |args| < |cmd.msgHandlerIDs| then |args| else |cmd.msgHandlerIDs| - 1;
      var h := FindHandler(handlers, cmd.msgHandlerIDs[i]);
      m.Some? &&
      (h.Some? && h.value.expectedType == TextType ==>
        CommandOutcome(users, handlers, unknownReply, alreadyKnownReply, cmd, chatID, m.value) ==
          Invoked(Call(h.value.handler, chatID, Strs(args), FindUser(users, chatID), None)))
  {
    CommandRoundTrip(cmd.command, cmd.numParms, args, tail);
    ArityDispatch(cmd.msgHandlerIDs, |args|);
  }

  /** An unknown sender of a non-command message gets at most the unknown-user reply, even when a
      default handler is configured; nothing else happens. */
  lemma UnknownSenderOnlyReply(
    users: seq<User>, s: ContextState, handlers: seq<Handler>, defaultHandler: Option<string>,
    unknownReply: Option<string>, chatID: ChatId, payload: Payload, now: int)
    requires Consistent(s)
    ensures FindUser(users, chatID) == null ==>
      NonCommandOutcome(users, s, handlers, defaultHandler, unknownReply, chatID, payload, now) == ReplyIfSet(unknownReply, chatID)
    ensures FindUser(users, chatID) != null ==>
      !NonCommandOutcome(users, s, handlers, defaultHandler, unknownReply, chatID, payload, now).Replied?
  {
  }

  /** Without a live context, the default handler runs exactly when it is configured and registered;
      it receives the message's parameters, the sender and the message type, and its expected type is
      not consulted. */
  lemma DefaultHandlerRoute(
    users: seq<User>, s: ContextState, handlers: seq<Handler>, defaultHandler: Option<string>,
    unknownReply: Option<string>, chatID: ChatId, payload: Payload, now: int)
    requires Consistent(s)
    requires FindUser(users, chatID) != null && !HasContextAt(s, now)
    ensures var o := NonCommandOutcome(users, s, handlers, defaultHandler, unknownReply, chatID, payload, now);
      (o.Invoked? <==> defaultHandler.Some? && FindHandler(handlers, defaultHandler.value).Some?) &&
      (!o.Invoked? ==> o == NoEffect)
    ensures var o := NonCommandOutcome(users, s, handlers, defaultHandler, unknownReply, chatID, payload, now);
      o.Invoked? ==>
        o.call.callback == FindHandler(handlers, defaultHandler.value).value.handler &&
        o.call.parms == ParmsOf(payload) && o.call.user == FindUser(users, chatID) &&
        o.call.msgType == Some(TypeName(payload))
  {
  }

  /** The default handler is not filtered by type: one that expects text still receives a photo. */
  lemma DefaultHandlerIgnoresType(
    users: seq<User>, handlers: seq<Handler>, id: string, unknownReply: Option<string>,
    chatID: ChatId, photo: seq<Parm>, now: int)
    requires FindUser(users, chatID) != null
    requires FindHandler(handlers, id).Some? && FindHandler(handlers, id).value.expectedType == TextType
    ensures var o := NonCommandOutcome(users, NoContext, handlers, Some(id), unknownReply, chatID, Photo(photo), now);
      o.Invoked? && o.call.parms == photo && o.call.msgType == Some("photo") &&
      !Accepts(FindHandler(handlers, id).value, "photo")
  {
  }

  /** As written, a live context never gets its handler run: a registered handler ends in the
      caught exception, an unregistered one in nothing. Neither the default handler nor a reply
      takes its place. */
  lemma ContextHandlerNeverRuns(
    users: seq<User>, s: ContextState, handlers: seq<Handler>, defaultHandler: Option<string>,
    unknownReply: Option<string>, chatID: ChatId, payload: Payload, now: int)
    requires Consistent(s)
    requires FindUser(users, chatID) != null && HasContextAt(s, now)
    ensures var o := NonCommandOutcome(users, s, handlers, defaultHandler, unknownReply, chatID, payload, now);
      (o == Errored <==> FindHandler(handlers, s.context.value.nextMsgHandlerID).Some?) &&
      (o != Errored ==> o == NoEffect)
  {
  }

  /** With the clock as written, a context set no later than the message arrives (with a
      non-negative TTL) stays live, so a known sender's later non-command messages never reach the
      default handler: they end in the exception or in nothing. */
  lemma ContextBlocksDefaultHandler(
    users: seq<User>, c: Context, ttl: Option<int>, setAt: int, handlers: seq<Handler>,
    defaultHandler: Option<string>, unknownReply: Option<string>, chatID: ChatId, payload: Payload, now: int)
    requires FindUser(users, chatID) != null
    requires setAt <= now && ttl.GetOr(DefaultTTL) >= 0
    ensures !NonCommandOutcome(users, WithContext(Some(c), ttl, setAt), handlers, defaultHandler, unknownReply, chatID, payload, now).Invoked?
  {
    var s := WithContext(Some(c), ttl, setAt);
    NeverExpiresAsWritten(s, now);
    ContextHandlerNeverRuns(users, s, handlers, defaultHandler, unknownReply, chatID, payload, now);
  }

  /** A non-command text message (one not starting with a slash) gives the default handler one
      parameter, the first line of the text, and the type "text". */
  lemma NonCommandTextToDefault(
    users: seq<User>, handlers: seq<Handler>, id: string, unknownReply: Option<string>,
    chatID: ChatId, text: string, now: int)
    requires text != [] && text[0] != '/'
    requires FindUser(users, chatID) != null && FindHandler(handlers, id).Some?
    ensures var m := MatchNonCommand(text);
      m.Some? &&
      var o := NonCommandOutcome(users, NoContext, handlers, Some(id), unknownReply, chatID, Text(m.value), now);
      o.Invoked? && o.call.msgType == Some(TextType) &&
      o.call.parms == [Str(m.value[1].value)] && m.value[1].value == text[..|m.value[1].value|]
  {
    NonCommandMatch(text);
  }
}
