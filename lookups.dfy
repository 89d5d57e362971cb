/** The wrapper's list lookups and list bookkeeping: finding a user or a handler (Array `find`),
    removing a user, choosing a handler by parameter count, and the announce list. */
module Lookups {
  import opened Common
  import opened BotUsers
  import opened MsgHandlers
  import opened Commands

  /** The index of the first element satisfying `p`, like JavaScript's `findIndex`. */
  function FirstWhere<T>(xs: seq<T>, p: T -> bool): (k: Option<nat>)
    ensures k.Some? ==> k.value < |xs| && p(xs[k.value])
    ensures k.Some? ==> forall j :: 0 <= j < k.value ==> !p(xs[j])
    ensures k.None? ==> forall j :: 0 <= j < |xs| ==> !p(xs[j])
  {
    if xs == [] then None
    else if p(xs[0]) then Some(0)
    else match FirstWhere(xs[1..], p)
      case None => None
      case Some(k) => Some(k + 1)
  }

  /** The test `user.telegramChatID === chatID`. */
  function ChatIs(chatID: ChatId): User -> bool {
    (u: User) => u.telegramChatID == chatID
  }

  /** The position of the first user with the given chat id. */
  function FirstUserIndex(users: seq<User>, chatID: ChatId): Option<nat> {
    FirstWhere(users, ChatIs(chatID))
  }

  /** `getMessageUser`: the first user whose chat id is the message's, or null. */
  function FindUser(users: seq<User>, chatID: ChatId): (u: User?)
    ensures u == null <==> forall j :: 0 <= j < |users| ==> users[j].telegramChatID != chatID
    ensures u != null ==> exists i :: (0 <= i < |users| && users[i] == u && u.telegramChatID == chatID &&
      forall j :: 0 <= j < i ==> users[j].telegramChatID != chatID)
  {
    match FirstUserIndex(users, chatID)
    case None => null
    case Some(i) => users[i]
  }

  /** The test `msgHandler.id === msgHandlerID`. */
  function IdIs(id: string): Handler -> bool {
    (h: Handler) => h.id == id
  }

  /** `getMsgHandler`: the first handler registered under the id, or none. */
  function FindHandler(handlers: seq<Handler>, id: string): (h: Option<Handler>)
    ensures h.None? <==> forall j :: 0 <= j < |handlers| ==> handlers[j].id != id
    ensures h.Some? ==> exists i :: (0 <= i < |handlers| && handlers[i] == h.value && h.value.id == id &&
      forall j :: 0 <= j < i ==> handlers[j].id != id)
  {
    match FirstWhere(handlers, IdIs(id))
    case None => None
    case Some(i) => Some(handlers[i])
  }

  /** The user list after `removeUser(chatID)`: the first user with that id is spliced out. */
  function RemoveFirstUser(users: seq<User>, chatID: ChatId): seq<User> {
    match FirstUserIndex(users, chatID)
    case None => users
    case Some(i) => users[..i] + users[i + 1..]
  }

  /** `Math.min(parms.length, msgHandlerIDs.length - 1)`. */
  function HandlerIndex(parmCount: nat, idCount: nat): int {
    if parmCount < idCount - 1 then parmCount else idCount - 1
  }

  /** `command.msgHandlerIDs[index]`: undefined (None) when the list is empty and the index is -1. */
  function SelectHandlerID(ids: seq<string>, parmCount: nat): Option<string> {
    var i := HandlerIndex(parmCount, |ids|);
    if 0 <= i then Some(ids[i]) else None
  }

  /** One entry of the command menu announced to Telegram. */
  datatype BotCommand = BotCommand(command: string, description: string)

  /** The list `announceCommands` builds: the commands whose `announce` is set, in order. */
  function Announcement(commands: seq<Command>): seq<BotCommand> {
    if commands == [] then []
    else
      var c := commands[|commands| - 1];
      Announcement(commands[..|commands| - 1]) + (if c.announce then [BotCommand(c.command, c.description)] else [])
  }

  /** Removal takes out the first user with the id and keeps everyone else in order; without such a
      user it changes nothing. */
  lemma RemoveFirstUserSpec(users: seq<User>, chatID: ChatId)
    ensures FindUser(users, chatID) == null ==> RemoveFirstUser(users, chatID) == users
    ensures FindUser(users, chatID) != null ==>
      exists i :: 0 <= i < |users| && users[i] == FindUser(users, chatID) &&
        RemoveFirstUser(users, chatID) == users[..i] + users[i + 1..]
    ensures |RemoveFirstUser(users, chatID)| == if FindUser(users, chatID) == null then |users| else |users| - 1
  {
    match FirstUserIndex(users, chatID)
    case None =>
    case Some(i) =>
      assert users[i] == FindUser(users, chatID);
  }

  /** The first index is determined by its two defining properties. */
  lemma FirstWhereIs<T>(xs: seq<T>, p: T -> bool, k: Option<nat>)
    requires k.Some? ==> k.value < |xs| && p(xs[k.value]) && forall j :: 0 <= j < k.value ==> !p(xs[j])
    requires k.None? ==> forall j :: 0 <= j < |xs| ==> !p(xs[j])
    ensures FirstWhere(xs, p) == k
  {
  }

  /** Splicing out an element the predicate rejects shifts the first match past it by one. */
  lemma {:induction false} FirstWhereSkip<T>(xs: seq<T>, p: T -> bool, i: nat)
    requires i < |xs| && !p(xs[i])
    ensures FirstWhere(xs[..i] + xs[i + 1..], p) ==
      match FirstWhere(xs, p)
      case None => None
      case Some(k) => Some(if k < i then k else k - 1)
    decreases i
  {
    var rest := xs[..i] + xs[i + 1..];
    if i == 0 {
      assert rest == xs[1..];
    } else {
      assert rest[0] == xs[0];
      assert rest[1..] == xs[1..][..i - 1] + xs[1..][i..];
      FirstWhereSkip(xs[1..], p, i - 1);
    }
  }

  /** Splicing out the first match leaves the first match of what came after it. */
  lemma {:induction false} FirstWhereAfterFirst<T>(xs: seq<T>, p: T -> bool, i: nat)
    requires FirstWhere(xs, p) == Some(i)
    ensures FirstWhere(xs[..i] + xs[i + 1..], p) ==
      match FirstWhere(xs[i + 1..], p)
      case None => None
      case Some(k) => Some(i + k)
    decreases i
  {
    var rest := xs[..i] + xs[i + 1..];
    if i == 0 {
      assert rest == xs[1..];
    } else {
      assert rest[0] == xs[0];
      assert rest[1..] == xs[1..][..i - 1] + xs[1..][i..];
      assert xs[1..][i..] == xs[i + 1..];
      FirstWhereAfterFirst(xs[1..], p, i - 1);
    }
  }

  /** Users with other chat ids are found exactly as before a removal. */
  lemma RemoveKeepsOtherUsers(users: seq<User>, chatID: ChatId, other: ChatId)
    requires other != chatID
    ensures FindUser(RemoveFirstUser(users, chatID), other) == FindUser(users, other)
  {
    match FirstUserIndex(users, chatID)
    case None =>
    case Some(i) =>
      var rest := users[..i] + users[i + 1..];
      assert RemoveFirstUser(users, chatID) == rest;
      assert !ChatIs(other)(users[i]);
      FirstWhereSkip(users, ChatIs(other), i);
      match FirstUserIndex(users, other)
      case None =>
        assert FirstUserIndex(rest, other) == None;
      case Some(k) =>
        var k' := if k < i then k else k - 1;
        assert FirstUserIndex(rest, other) == Some(k');
        assert rest[k'] == users[k];
  }

  /** Only the first entry goes: when the directory holds a second user with the same id (addUser
      allows duplicates), that user is found after the removal. */
  lemma RemoveOnlyFirst(users: seq<User>, chatID: ChatId, i: nat)
    requires FirstUserIndex(users, chatID) == Some(i)
    ensures FindUser(RemoveFirstUser(users, chatID), chatID) == FindUser(users[i + 1..], chatID)
  {
    var rest, tail := users[..i] + users[i + 1..], users[i + 1..];
    FirstWhereAfterFirst(users, ChatIs(chatID), i);
    match FirstUserIndex(tail, chatID)
    case None =>
    case Some(k) =>
      assert rest[i + k] == tail[k];
  }

  /** With a single user under the id, removing it makes the id unknown. */
  lemma RemoveUniqueMakesUnknown(users: seq<User>, chatID: ChatId, i: nat)
    requires i < |users| && users[i].telegramChatID == chatID
    requires forall j :: 0 <= j < |users| && j != i ==> users[j].telegramChatID != chatID
    ensures FindUser(RemoveFirstUser(users, chatID), chatID) == null
  {
    FirstWhereIs(users, ChatIs(chatID), Some(i));
    RemoveOnlyFirst(users, chatID, i);
    var tail := users[i + 1..];
    assert forall j :: 0 <= j < |tail| ==> tail[j] == users[i + 1 + j];
  }

  /** Arity dispatch: no parameters select the first id, `k` parameters the k-th, and any count from
      `length - 1` on selects the last; an empty id list selects nothing. */
  lemma ArityDispatch(ids: seq<string>, parmCount: nat)
    ensures ids == [] <==> SelectHandlerID(ids, parmCount).None?
    ensures ids != [] && parmCount == 0 ==> SelectHandlerID(ids, parmCount) == Some(ids[0])
    ensures parmCount < |ids| ==> SelectHandlerID(ids, parmCount) == Some(ids[parmCount])
    ensures ids != [] && parmCount >= |ids| - 1 ==> SelectHandlerID(ids, parmCount) == Some(ids[|ids| - 1])
  {
  }

  /** The announce list follows the command list: it splits where the commands split. */
  lemma {:induction false} AnnouncementAppend(a: seq<Command>, b: seq<Command>)
    ensures Announcement(a + b) == Announcement(a) + Announcement(b)
    decreases |b|
  {
    if b == [] {
      assert a + b == a;
    } else {
      var b' := b[..|b| - 1];
      assert (a + b)[..|a + b| - 1] == a + b';
      AnnouncementAppend(a, b');
    }
  }

  /** An announced command appears with its name and description; one without the flag does not,
      and no entry comes from anywhere else. */
  lemma {:induction false} AnnouncementMembers(commands: seq<Command>)
    ensures |Announcement(commands)| <= |commands|
    ensures forall c :: c in commands && c.announce ==> BotCommand(c.command, c.description) in Announcement(commands)
    ensures forall e :: e in Announcement(commands) ==>
      exists c :: c in commands && c.announce && e == BotCommand(c.command, c.description)
  {
    if commands != [] {
      var init, c := commands[..|commands| - 1], commands[|commands| - 1];
      AnnouncementMembers(init);
      assert commands == init + [c];
    }
  }

  /** Commands as the constructor leaves them are never announced: it never sets the flag. */
  lemma {:induction false} UnflaggedNotAnnounced(commands: seq<Command>)
    requires forall i :: 0 <= i < |commands| ==> !commands[i].announce
    ensures Announcement(commands) == []
  {
    if commands != [] {
      UnflaggedNotAnnounced(commands[..|commands| - 1]);
    }
  }

  /** Appending never changes a match already present; otherwise the first match is the appended
      list's, shifted past the old elements. */
  lemma {:induction false} FirstWhereAppend<T>(xs: seq<T>, ys: seq<T>, p: T -> bool)
    ensures FirstWhere(xs + ys, p) ==
      match FirstWhere(xs, p)
      case Some(k) => Some(k)
      case None =>
        match FirstWhere(ys, p)
        case None => None
        case Some(k) => Some(|xs| + k)
  {
    if xs == [] {
      assert xs + ys == ys;
    } else {
      assert (xs + ys)[0] == xs[0];
      assert (xs + ys)[1..] == xs[1..] + ys;
      FirstWhereAppend(xs[1..], ys, p);
    }
  }

  /** Adding users never changes who an already known chat id resolves to (the earlier entry wins);
      an unknown id resolves to the first added user with it. */
  lemma FindUserAppend(users: seq<User>, added: seq<User>, chatID: ChatId)
    ensures FindUser(users, chatID) != null ==> FindUser(users + added, chatID) == FindUser(users, chatID)
    ensures FindUser(users, chatID) == null ==> FindUser(users + added, chatID) == FindUser(added, chatID)
  {
    FirstWhereAppend(users, added, ChatIs(chatID));
    match FirstUserIndex(added, chatID)
    case None =>
    case Some(k) => assert (users + added)[|users| + k] == added[k];
  }

  /** Registering handlers never shadows one already registered under the same id: lookups keep
      returning the earlier handler; a new id resolves to the first added handler with it. */
  lemma FindHandlerAppend(handlers: seq<Handler>, added: seq<Handler>, id: string)
    ensures FindHandler(handlers, id).Some? ==> FindHandler(handlers + added, id) == FindHandler(handlers, id)
    ensures FindHandler(handlers, id).None? ==> FindHandler(handlers + added, id) == FindHandler(added, id)
  {
    FirstWhereAppend(handlers, added, IdIs(id));
    match FirstWhere(added, IdIs(id))
    case None =>
    case Some(k) => assert (handlers + added)[|handlers| + k] == added[k];
  }
}
