/** TelegramBotWrapper: the bot's registries (users, message handlers, commands), its reply
    settings, and the two routes an incoming message takes. The Telegram client is not part of
    this model: each route is an entry method that receives what the client would hand the
    registered closure, and what the bot sends or calls is recorded in a ghost log. */
module BotWrapper {
  import opened Common
  import opened Messages
  import opened Parms
  import opened UserContexts
  import opened BotUsers
  import opened MsgHandlers
  import opened Commands
  import opened Lookups
  import opened Routing

  /** One observable effect of the bot: a text sent to a chat, or a handler callback called. */
  datatype Effect = Sent(chatID: ChatId, text: string) | Ran(call: Invocation)

  /** The effects of one message's outcome: at most one; an exception or a silent route adds none. */
  function EffectsOf(o: Outcome): (e: seq<Effect>)
    ensures |e| <= 1
    ensures o.Replied? ==> e == [Sent(o.chatID, o.text)]
    ensures o.Invoked? ==> e == [Ran(o.call)]
    ensures o.NoEffect? || o.Errored? <==> e == []
  {
    match o
    case Replied(chatID, text) => [Sent(chatID, text)]
    case Invoked(call) => [Ran(call)]
    case NoEffect => []
    case Errored => []
  }

  class Bot {
    var users: seq<User>
    var msgHandlers: seq<Handler>
    var commands: seq<Command>
    var defaultHandler: Option<string>
    var unknownUserReply: Option<string>
    var alreadyKnownReply: Option<string>
    /** Everything sent or called so far, in order. */
    ghost var log: seq<Effect>

    /** Every known user keeps its context invariant. */
    ghost predicate Valid()
      reads this, users
    {
      forall i :: 0 <= i < |users| ==> users[i].Valid()
    }

    /** A bot with no users, handlers or commands, no default handler and no replies set. */
    constructor()
      ensures Valid()
      ensures users == [] && msgHandlers == [] && commands == []
      ensures defaultHandler == None && unknownUserReply == None && alreadyKnownReply == None
      ensures log == []
    {
      users, msgHandlers, commands := [], [], [];
      defaultHandler, unknownUserReply, alreadyKnownReply := None, None, None;
      log := [];
    }

    /** Appends a user; duplicates of a chat id are allowed. */
    method AddUser(botUser: User)
      requires Valid() && botUser.Valid()
      modifies this`users
      ensures Valid() && users == old(users) + [botUser]
    {
      users := users + [botUser];
    }

    /** Appends several users, in order. */
    method AddUsers(botUsers: seq<User>)
      requires Valid() && forall i :: 0 <= i < |botUsers| ==> botUsers[i].Valid()
      modifies this`users
      ensures Valid() && users == old(users) + botUsers
    {
      users := users + botUsers;
    }

    /** Searches for the first user with the chat id and splices it out; without one, changes nothing. */
    method RemoveUser(chatID: ChatId)
      requires Valid()
      modifies this`users
      ensures Valid() && users == RemoveFirstUser(old(users), chatID)
    {
      var index: Option<nat> := None;
      var i := 0;
      while i < |users|
        invariant 0 <= i <= |users|
        invariant forall j :: 0 <= j < i ==> users[j].telegramChatID != chatID
        invariant index == None
      {
        if users[i].telegramChatID == chatID {
          index := Some(i);
          break;
        }
        i := i + 1;
      }
      if index.Some? {
        var k := index.value;
        FirstWhereIs(users, ChatIs(chatID), index);
        assert FirstUserIndex(users, chatID) == Some(k);
        ghost var before := users;
        users := users[..k] + users[k + 1..];
        assert forall m :: 0 <= m < |users| ==> users[m] == before[if m < k then m else m + 1];
      } else {
        FirstWhereIs(users, ChatIs(chatID), None);
      }
    }

    /** Appends a message handler; an id already registered keeps resolving to the earlier one. */
    method AddMsgHandler(msgHandler: Handler)
      modifies this`msgHandlers
      ensures msgHandlers == old(msgHandlers) + [msgHandler]
    {
      msgHandlers := msgHandlers + [msgHandler];
    }

    /** Appends several message handlers, in order. */
    method AddMsgHandlers(added: seq<Handler>)
      modifies this`msgHandlers
      ensures msgHandlers == old(msgHandlers) + added
    {
      msgHandlers := msgHandlers + added;
    }

    /** Names the handler for non-command messages from users without a context. */
    method SetDefaultHandler(msgHandlerID: Option<string>)
      modifies this`defaultHandler
      ensures defaultHandler == msgHandlerID
    {
      defaultHandler := msgHandlerID;
    }

    /** Appends a command. Registering its pattern with the Telegram client is not modelled; the
        command route is `DispatchCommand`. */
    method AddCommand(command: Command)
      modifies this`commands
      ensures commands == old(commands) + [command]
    {
      commands := commands + [command];
    }

    /** Adds each command in turn, in order. */
    method AddCommands(added: seq<Command>)
      modifies this`commands
      ensures commands == old(commands) + added
    {
      var i := 0;
      while i < |added|
        invariant 0 <= i <= |added|
        invariant commands == old(commands) + added[..i]
      {
        AddCommand(added[i]);
        assert added[..i + 1] == added[..i] + [added[i]];
        i := i + 1;
      }
      assert added[..i] == added;
    }

    /** The list `announceCommands` hands to Telegram: each command whose `announce` is set, as its
        name and description, in registration order. */
    method AnnounceCommands() returns (announcement: seq<BotCommand>)
      ensures announcement == Announcement(commands)
      ensures forall c :: c in commands && c.announce ==> BotCommand(c.command, c.description) in announcement
      ensures forall e :: e in announcement ==> exists c :: c in commands && c.announce && e == BotCommand(c.command, c.description)
    {
      announcement := [];
      var i := 0;
      while i < |commands|
        invariant 0 <= i <= |commands|
        invariant announcement == Announcement(commands[..i])
      {
        var command := commands[i];
        if command.announce {
          announcement := announcement + [BotCommand(command.command, command.description)];
        }
        assert commands[..i + 1][..i] == commands[..i];
        i := i + 1;
      }
      assert commands[..i] == commands;
      AnnouncementMembers(commands);
    }

    method SetUnknownUserReply(text: Option<string>)
      modifies this`unknownUserReply
      ensures unknownUserReply == text
    {
      unknownUserReply := text;
    }

    method SetAlreadyKnownReply(text: Option<string>)
      modifies this`alreadyKnownReply
      ensures alreadyKnownReply == text
    {
      alreadyKnownReply := text;
    }

    /** Sends a text to a chat: recorded in the log. */
    method SendMessage(chatID: ChatId, text: string)
      modifies this`log
      ensures log == old(log) + [Sent(chatID, text)]
    {
      log := log + [Sent(chatID, text)];
    }

    /** The closure `addCommand` registers for `command`, run on a message from `chatID` whose text
        the command's pattern matched with `matches`. It reads the registries, never a user's context,
        and records at most one effect. */
    method DispatchCommand(command: Command, chatID: ChatId, matches: seq<Option<string>>) returns (outcome: Outcome)
      requires command in commands
      modifies this`log
      ensures outcome == CommandOutcome(users, msgHandlers, unknownUserReply, alreadyKnownReply, command, chatID, matches)
      ensures log == old(log) + EffectsOf(outcome)
    {
      var user := FindUser(users, chatID);
      if user == null && command.command != StartCommand {
        outcome := ReplyIfSet(unknownUserReply, chatID);
        if unknownUserReply.Some? {
          SendMessage(chatID, unknownUserReply.value);
        }
      } else if user != null && command.command == StartCommand {
        outcome := ReplyIfSet(alreadyKnownReply, chatID);
        if alreadyKnownReply.Some? {
          SendMessage(chatID, alreadyKnownReply.value);
        }
      } else {
        var parms := GetMessageParms(Text(matches));
        var msgHandlerID := SelectHandlerID(command.msgHandlerIDs, |parms|);
        outcome := NoEffect;
        if msgHandlerID.Some? {
          var msgHandler := FindHandler(msgHandlers, msgHandlerID.value);
          if msgHandler.Some? && msgHandler.value.expectedType == TextType {
            // The callback itself is called, not `execute`: three arguments, no type.
            var call := Call(msgHandler.value.handler, chatID, parms, user, None);
            log := log + [Ran(call)];
            outcome := Invoked(call);
          }
        }
      }
    }

    /** `nonCommandHandler`, run on a message from `chatID` that is not a command, at time `now`.
        The sender's context is verified (and deleted if expired, the only state it changes);
        every other user is untouched, and at most one effect is recorded. */
    method DispatchNonCommand(chatID: ChatId, payload: Payload, now: int) returns (outcome: Outcome)
      requires Valid()
      modifies this`log, users
      ensures Valid()
      ensures var user := FindUser(users, chatID);
        outcome == NonCommandOutcome(users, if user == null then NoContext else old(user.State()),
          msgHandlers, defaultHandler, unknownUserReply, chatID, payload, now)
      ensures var user := FindUser(users, chatID);
        user != null ==> user.State() == Verified(old(user.State()), now)
      ensures forall i :: 0 <= i < |users| && users[i] != FindUser(users, chatID) ==>
        users[i].State() == old(users[i].State())
      ensures log == old(log) + EffectsOf(outcome)
    {
      var user := FindUser(users, chatID);
      if user == null {
        outcome := ReplyIfSet(unknownUserReply, chatID);
        if unknownUserReply.Some? {
          SendMessage(chatID, unknownUserReply.value);
        }
      } else {
        outcome := DispatchKnownSender(user, chatID, payload, now);
      }
    }

    /** The part of `nonCommandHandler` after the sender was found: verifies its context, then
        routes to the context's handler or to the default handler. */
    method DispatchKnownSender(user: User, chatID: ChatId, payload: Payload, now: int) returns (outcome: Outcome)
      requires user.Valid() && FindUser(users, chatID) == user
      modifies this`log, user
      ensures user.Valid() && user.State() == Verified(old(user.State()), now)
      ensures outcome == NonCommandOutcome(users, old(user.State()),
        msgHandlers, defaultHandler, unknownUserReply, chatID, payload, now)
      ensures log == old(log) + EffectsOf(outcome)
    {
      var parms := GetMessageParms(payload);
      var hasContext := user.HasContext(now);
      if hasContext {
        var userContext := user.GetContext(now);
        var msgHandler := FindHandler(msgHandlers, userContext.value.nextMsgHandlerID);
        if msgHandler.Some? {
          parms := CarriedParms(userContext.value, parms);
          // Comparing against the undeclared identifier `type` throws a ReferenceError here,
          // which the surrounding catch logs: the handler is not called.
          outcome := Errored;
        } else {
          outcome := NoEffect;
        }
      } else if defaultHandler.Some? {
        var msgHandler := FindHandler(msgHandlers, defaultHandler.value);
        if msgHandler.Some? {
          var call := Execute(msgHandler.value, chatID, parms, user, Some(TypeName(payload)));
          log := log + [Ran(call)];
          outcome := Invoked(call);
        } else {
          outcome := NoEffect;
        }
      } else {
        outcome := NoEffect;
      }
    }
  }
}
