# telegram-bot-wrapper, modelled in Dafny

A model of the routing core of a small Node.js wrapper around a Telegram bot client. The wrapper keeps:

- a directory of known users (`TelegramBotUser`), each of which may carry a *context* (`TelegramUserContext`) with a time-to-live;
- a registry of message handlers (`TelegramMsgHandler`);
- a list of slash-commands (`TelegramCommand`).

It decides, for every incoming message, what happens:

- A **command** (`/cmd arg1 arg2 …`) is gated by whether its sender is known: only unknown users may send `/start`, and known users may send everything else. The command's handler is then chosen by how many parameters were given.
- **Any other message** (text not starting with a slash, a photo, a location, …) from an unknown sender gets at most the unknown-user reply and reaches no handler. From a known sender with a live context, it is meant to go to the handler that context names, but as written that route throws before the call (see below) and no handler runs. From a known sender without a context, it goes to the default handler when one is set and registered.

The model is organised by the source's own entities:

| module | file | models |
|---|---|---|
| `Common` | common.dfy | nullable values (`Option`), chat ids, opaque application objects, handler parameters |
| `UserContexts` | user_context.dfy | `TelegramUserContext` and how its carried-over parameters are placed |
| `BotUsers` | bot_user.dfy | `TelegramBotUser` as a class with mutable context fields, plus the context lifecycle as functions on a value |
| `MsgHandlers` | msg_handler.dfy | `TelegramMsgHandler`: its defaults and `execute` forwarding |
| `Commands` | command.dfy | the `TelegramCommand` constructor: defaults and the loop that builds the pattern |
| `Messages` | messages.dfy | the message types the wrapper routes |
| `Parms` | parms.dfy | `getMessageParms`: parameter extraction per message type |
| `Matching` | matching.dfy | what a command's pattern and the non-command pattern `^([^/].*)` capture, as scanners |
| `Lookups` | lookups.dfy | `getMessageUser`, `getMsgHandler`, the list splice of `removeUser`, arity dispatch, the announce filter |
| `Routing` | routing.dfy | the decision each route takes for one message |
| `BotWrapper` | bot.dfy | `TelegramBotWrapper` as a class: its registries, setters and the two entry routes |

The wall clock (`moment()`) becomes a parameter `now` in milliseconds. What the bot sends or calls is recorded in a ghost log of effects. An exception that a route catches and logs becomes the outcome `Errored`, with no effect.

Several behaviours of the code differ from what its documentation says. Each is modelled **as written** and exposed by a lemma:

- **Expiry direction.** `verifyContext` computes `contextCreated.diff(now)`, that is creation time minus now, truncated toward zero to whole minutes. With a non-negative TTL, a context set at or before `now` therefore never expires (`BotUsers.NeverExpiresAsWritten`). The documented rule, expiry after `ttl` minutes, is stated as `DocumentedExpired`; `ExpiryContradictsDocumentation` exhibits the gap.
- **Undeclared `type`.** The context route compares the handler's expected type against an identifier `type` that `nonCommandHandler` never declares (TelegramBotWrapper.js:74). Reading an undeclared identifier throws a ReferenceError, and the catch at :89-91 swallows it. A context's handler therefore never runs (`Routing.ContextHandlerNeverRuns`). Because contexts do not expire either, a known user with a context never reaches the default handler again (`Routing.ContextBlocksDefaultHandler`).
- **Direct call on the command route.** The command route calls the callback directly rather than through `execute`, so the callback receives no type argument. The route never reads the sender's context.
- **Falsy zero.** `numParms || …` treats an explicit `0` like an omitted count (`Commands.DefaultsOfConstructor`).
- **`announce` never set.** The constructor never sets `announce`, so only commands whose caller sets the flag are announced (`Lookups.UnflaggedNotAnnounced`).
- **No type check for the default handler.** The default handler is called whatever type it expects (`Routing.DefaultHandlerIgnoresType`).

## Model

| member | source | states |
|---|---|---|
| `UserContexts.NewContext` | TelegramUserContext.js:13-17 | the handler id is stored as given; `data` and `previousParms` are null unless given |
| `UserContexts.CarriedParms` | TelegramBotWrapper.js:69-72 | with carried-over parameters, they come first, in order, followed by the new message's parameters, element by element; without them, the new parameters are unchanged |
| `UserContexts.DefaultContextCarriesNothing` | TelegramUserContext.js:13-16 | a context built with defaults has no data and hands its handler exactly the new parameters |
| `BotUsers.Verified` | TelegramBotUser.js:33-37 | verification keeps the invariant; it leaves the state unchanged or clears all three fields, and clears them exactly when the state was already empty or the context is expired by the as-written test |
| `BotUsers.WithContext` | TelegramBotUser.js:44-48 | `setContext` stores the given context, stamps it with `now` and stores the TTL, 5 when omitted; the invariant holds |
| `BotUsers.User.constructor` | TelegramBotUser.js:12-19 | a new user has chat id and application data as given and all three context fields null |
| `BotUsers.User.HasContext` | TelegramBotUser.js:25-28 | verifies the context first, then reports whether one remains |
| `BotUsers.User.VerifyContext` | TelegramBotUser.js:33-37 | the new state is the verified old state; the invariant (a context implies a creation time and a TTL) is preserved |
| `BotUsers.User.SetContext` | TelegramBotUser.js:44-48 | the context is replaced outright, not merged, stamped with `now`, with the TTL defaulting to 5 |
| `BotUsers.User.GetContext` | TelegramBotUser.js:54-57 | verifies the context first, then returns what remains |
| `BotUsers.User.DeleteContext` | TelegramBotUser.js:62-66 | all three context fields become null together |
| `BotUsers.TruncDivBounds` | TelegramBotUser.js:34 | the minute difference rounds toward zero: never past zero, and within one minute of the exact quotient |
| `BotUsers.HasContextIffGetContext` | TelegramBotUser.js:25-28 | `hasContext()` is true exactly when `getContext()` at the same instant is non-null, and that context is the stored one |
| `BotUsers.VerifyIdempotent` | TelegramBotUser.js:33-37 | verifying twice at the same instant equals verifying once |
| `BotUsers.NeverExpiresAsWritten` | TelegramBotUser.js:34 | a context created at or before `now` with a non-negative TTL is never deleted, and is still returned |
| `BotUsers.ExpiredIffCreatedAhead` | TelegramBotUser.js:34 | as written, a context expires exactly when its creation time lies at least `ttl + 1` minutes after `now` |
| `BotUsers.ExpiryContradictsDocumentation` | TelegramBotUser.js:39-44 | read `ttl + 1` minutes after it was set, a context is expired by the documented rule yet still live as written |
| `BotUsers.SetContextReplaces` | TelegramBotUser.js:44-57 | after `setContext(c)` with a TTL that is non-negative (or omitted), a `getContext()` at the same time or later returns exactly `c` |
| `MsgHandlers.NewHandler` | TelegramMsgHandler.js:21-25 | id and callback are stored as given; the expected type is "text" unless given |
| `MsgHandlers.Execute` | TelegramMsgHandler.js:34-36 | the callback receives message, parameters and user as given, and a type that defaults to "text" |
| `MsgHandlers.DefaultHandlerIsText` | TelegramMsgHandler.js:15-24 | a handler built without a type accepts text and nothing else; executing it without a type passes "text" |
| `Commands.BuildPattern` | TelegramCommand.js:19-22 | the loop builds "/" + command followed by `max(numParms, 0)` optional groups, which hold exactly that many capturing groups |
| `Commands.NewCommand` | TelegramCommand.js:13-23 | name and description are stored; ids default to `[command]`; the count defaults to `ids.length - 1` when omitted or 0; the pattern is built from name and count; `announce` is not set |
| `Commands.GroupHasOneCapture` | TelegramCommand.js:21 | one parameter group holds exactly one capturing group |
| `Commands.GroupsCount` | TelegramCommand.js:20-22 | `n` groups hold exactly `max(n, 0)` capturing groups |
| `Commands.PatternShape` | TelegramCommand.js:19-23 | the pattern starts with "/" + command and then holds exactly `max(numParms, 0)` capturing groups; it depends on name and count alone |
| `Commands.DefaultsOfConstructor` | TelegramCommand.js:16-17 | without ids the command handles itself with no parameters; an explicit 0 count means `ids.length - 1`; any other count is kept |
| `Parms.GetMessageParms` | TelegramBotWrapper.js:284-328 | the switch and the text loop compute the per-type parameter list `ParmsOf` |
| `Parms.Captured` | TelegramBotWrapper.js:290-294 | the text parameters are strings and never outnumber the groups |
| `Parms.CapturedAppend` | TelegramBotWrapper.js:290-294 | extraction keeps the order of the groups: it distributes over concatenation |
| `Parms.CapturedSingle` | TelegramBotWrapper.js:291-293 | an undefined group adds nothing; a defined one adds itself, even the empty string |
| `Parms.CapturedAllDefined` | TelegramBotWrapper.js:290-294 | when every group is defined, the parameters are the groups in order |
| `Parms.TextParmsBound` | TelegramBotWrapper.js:288-295 | a text message yields at most `matches.length - 1` parameters |
| `Parms.ParmsByType` | TelegramBotWrapper.js:296-325 | a photo yields its size list unchanged; each single-object type yields exactly that object; a location yields the location, then the venue when present |
| `Matching.NonSpaceRunGreedy` | TelegramCommand.js:21 | `[^\s]*` takes a whitespace-free prefix of the text and stops only at a whitespace character or the end: the longest such prefix |
| `Matching.FindFrom` | TelegramCommand.js:19 | the pattern matches at the first occurrence of "/" + command |
| `Matching.ScanGroupsShape` | TelegramCommand.js:21 | captures are contiguous (once a group is absent, all later ones are) and each present capture is whitespace-free |
| `Matching.MatchCommandShape` | TelegramCommand.js:19-23 | a command match has the full match, which starts with "/" + command, and one entry per capturing group of the pattern |
| `Matching.CommandParmsBound` | TelegramCommand.js:20-22 | a command yields at most `max(numParms, 0)` text parameters |
| `Matching.ScanGroupsRoundTrip` | TelegramCommand.js:21 | scanning the text of whitespace-free arguments gives them back in order, then absent groups |
| `Matching.CommandRoundTrip` | TelegramCommand.js:19-22 | "/cmd" followed by at most `numParms` whitespace-free arguments matches, and yields exactly those arguments as parameters, in order |
| `Matching.NonCommandMatch` | TelegramBotWrapper.js:27 | `^([^/].*)` matches exactly text not starting with a slash, and yields one parameter: the first line |
| `Lookups.FirstWhere` | TelegramBotWrapper.js:173-175 | `find` yields the first index whose element satisfies the test, or none when no element does |
| `Lookups.FindUser` | TelegramBotWrapper.js:265-276 | the sender is the first user with the chat id, or null exactly when no user has it |
| `Lookups.FindHandler` | TelegramBotWrapper.js:172-176 | the first handler with the id, or none exactly when no handler has it |
| `Lookups.FirstWhereIs` | TelegramBotWrapper.js:173-175 | the first match is determined by its defining properties |
| `Lookups.RemoveFirstUserSpec` | TelegramBotWrapper.js:131-143 | removal splices out the first user with the id; without one it changes nothing; the length drops by one exactly when a user is found |
| `Lookups.RemoveKeepsOtherUsers` | TelegramBotWrapper.js:131-143 | other chat ids resolve to the same user after a removal |
| `Lookups.RemoveOnlyFirst` | TelegramBotWrapper.js:133-137 | only the first entry goes: a later duplicate is found after the removal |
| `Lookups.RemoveUniqueMakesUnknown` | TelegramBotWrapper.js:131-143 | removing the only user with an id makes that id unknown |
| `Lookups.FindUserAppend` | TelegramBotWrapper.js:116-126 | adding users never changes who a known id resolves to; an unknown id resolves to the first added user with it |
| `Lookups.FindHandlerAppend` | TelegramBotWrapper.js:149-159 | adding handlers never shadows an already registered id |
| `Lookups.ArityDispatch` | TelegramBotWrapper.js:211-212 | no parameters select the first id, `k` select the k-th, any count from `length - 1` on selects the last; an empty id list selects nothing |
| `Lookups.AnnouncementAppend` | TelegramBotWrapper.js:241-248 | the announce list splits where the command list splits |
| `Lookups.AnnouncementMembers` | TelegramBotWrapper.js:241-248 | exactly the flagged commands are announced, with name and description |
| `Lookups.UnflaggedNotAnnounced` | TelegramBotWrapper.js:242 | commands without the flag, as the constructor leaves them, announce nothing |
| `Routing.ReplyIfSet` | TelegramBotWrapper.js:55-57 | a reply is sent exactly when one is set, with that text to that chat |
| `Routing.CommandGating` | TelegramBotWrapper.js:196-204 | an unknown sender of anything but `/start` gets at most the unknown-user reply; a known sender of `/start` at most the already-known reply; a handler runs only when exactly one of "unknown" and "`/start`" holds; the route never errors |
| `Routing.CommandInvocation` | TelegramBotWrapper.js:205-220 | a handler runs exactly when the gate passes and the id chosen by parameter count names a registered text handler; it receives the text parameters, the sender (null for `/start`) and no type |
| `Routing.CommandArgumentsReachHandler` | TelegramBotWrapper.js:187-220 | "/cmd" with `k` arguments runs the text handler registered under id `k` (or the last id), with those arguments in order |
| `Routing.UnknownSenderOnlyReply` | TelegramBotWrapper.js:54-57 | a non-command message from an unknown sender gets at most the unknown-user reply, even with a default handler set; a known sender never gets a reply |
| `Routing.DefaultHandlerRoute` | TelegramBotWrapper.js:78-86 | without a live context, the default handler runs exactly when configured and registered, with the message's parameters, the sender and the message type |
| `Routing.DefaultHandlerIgnoresType` | TelegramBotWrapper.js:80-85 | a text-only default handler still receives a photo |
| `Routing.ContextHandlerNeverRuns` | TelegramBotWrapper.js:64-77 | with a live context, a registered context handler ends in the caught exception, an unregistered one in nothing; no handler runs |
| `Routing.ContextBlocksDefaultHandler` | TelegramBotWrapper.js:64-86 | for a known sender whose context was set with a non-negative (or omitted) TTL at a time no later than `now`, no non-command message at `now` reaches a handler |
| `Routing.NonCommandTextToDefault` | TelegramBotWrapper.js:27-29 | text not starting with a slash reaches the default handler with one parameter, its first line, and the type "text" |
| `BotWrapper.EffectsOf` | TelegramBotWrapper.js:44-92 | a route records at most one effect: the reply it sends or the handler it calls, none for an exception |
| `BotWrapper.Bot.constructor` | TelegramBotWrapper.js:15-24 | a new bot has empty registries, no default handler and no replies |
| `BotWrapper.Bot.AddUser` | TelegramBotWrapper.js:116-119 | the user is appended, duplicates allowed |
| `BotWrapper.Bot.AddUsers` | TelegramBotWrapper.js:124-126 | the users are appended in order |
| `BotWrapper.Bot.RemoveUser` | TelegramBotWrapper.js:131-143 | the search loop and splice remove exactly the first user with the id |
| `BotWrapper.Bot.AddMsgHandler` | TelegramBotWrapper.js:149-152 | the handler is appended |
| `BotWrapper.Bot.AddMsgHandlers` | TelegramBotWrapper.js:157-159 | the handlers are appended in order |
| `BotWrapper.Bot.SetDefaultHandler` | TelegramBotWrapper.js:164-166 | the default handler id is set |
| `BotWrapper.Bot.AddCommand` | TelegramBotWrapper.js:182-184 | the command is appended |
| `BotWrapper.Bot.AddCommands` | TelegramBotWrapper.js:231-235 | the commands are added one by one, in order |
| `BotWrapper.Bot.AnnounceCommands` | TelegramBotWrapper.js:239-248 | the filter loop builds the flagged commands' names and descriptions, in order, and nothing else |
| `BotWrapper.Bot.SetUnknownUserReply` | TelegramBotWrapper.js:334-336 | the unknown-user reply is set |
| `BotWrapper.Bot.SetAlreadyKnownReply` | TelegramBotWrapper.js:341-343 | the already-known reply is set |
| `BotWrapper.Bot.SendMessage` | TelegramBotWrapper.js:350-354 | the send is recorded |
| `BotWrapper.Bot.DispatchCommand` | TelegramBotWrapper.js:187-225 | the command route's outcome is `CommandOutcome`, its effect is logged, and no user state changes |
| `BotWrapper.Bot.DispatchNonCommand` | TelegramBotWrapper.js:44-92 | the outcome is `NonCommandOutcome` on the sender's state before the call; only the sender's context is verified (possibly deleted, never otherwise changed); other users are untouched; the effect is logged |
| `BotWrapper.Bot.DispatchKnownSender` | TelegramBotWrapper.js:58-87 | for a found sender: its context is verified and nothing else of it changes; the outcome is `NonCommandOutcome` on its state before the call; at most that one effect is logged |

## Left out

- The Telegram client is not part of this model. Left out are its construction with polling (TelegramBotWrapper.js:16) and the `onText`/`on` registrations (:27-36, :187). Which registered patterns fire for a message is the client's decision, and it may fire several. The routes are entry methods that receive the message's chat id and the match. The `"g"` flag's `lastIndex` state (TelegramCommand.js:23) is also left out.
- The regular-expression engine is not modelled. The two pattern shapes are characterised by scanners (`Matching`). The command scanner anchors at the first occurrence of "/" + command, with no word-boundary check, as the unanchored pattern does.
- Outbound sends (`sendMessage`, `sendPhoto`, `sendAudio`, TelegramBotWrapper.js:350-380) are network calls. `sendMessage` is recorded in the effect log. `sendPhoto` and `sendAudio` are not modelled; no route uses them.
- The promise chain `setMyCommands` then `setChatMenuButton` (TelegramBotWrapper.js:251-257) is asynchronous network I/O. Only the list it announces is modelled.
- Logging (`logDebug`, `logError`, the `debug` flag; TelegramBotWrapper.js:98-110) is console output. A caught exception is the outcome `Errored`.
- The wall clock `moment()` is the parameter `now`, in milliseconds. Daylight-saving and calendar effects of moment's `diff` are not modelled.
- Handler callbacks, `appData` and context `data` are opaque references. A callback is recorded as an invocation, not run. So an exception thrown inside a callback, and anything a callback does to the bot or its users, are not modelled.
- The `msg` object is reduced to its chat id and, per type, the objects parameter extraction reads.
- `getMessageParms` returns `[]` for an unknown message type. That case cannot arise from the wrapper's registrations, and the closed `Payload` type leaves it out.
- `BotUsers.User.SetContext`: an explicit `null` TTL is not modelled, because JavaScript's default applies only to an omitted argument. An absent TTL here always means 5.
- The dispatch of a non-command message reads the clock once: `now` serves both the `hasContext` and the `getContext` check. The source calls `moment()` in each, and the two reads can differ only if the wall clock goes backwards between them.
- `MsgHandlers.Handler.id` is a string, so a handler built without an id is not modelled. In the source such a handler has an undefined id, and with an empty `msgHandlerIDs` list the command route's lookup `getMsgHandler(undefined)` (TelegramBotWrapper.js:212-214) would find it. In the model that lookup finds nothing.
- Concurrency is not modelled: the routes run one message at a time, as Node's event loop runs the callbacks.
