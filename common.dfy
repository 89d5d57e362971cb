/** Values shared by every part of the bot wrapper model. */
module Common {

  /** The conventional Some/None datatype, standing for a JavaScript value that may be null or undefined. */
  datatype Option<+T> = None | Some(value: T) {
    function GetOr(default: T): T {
      match this
      case Some(v) => v
      case None => default
    }
  }

  /** A Telegram chat id (`msg.chat.id`, `telegramChatID`). */
  type ChatId = int

  /** An opaque reference to an application object the core only passes around
      (a photo size, a voice note, a location, a handler callback, application data). */
  type Ref = nat

  /** One element of a handler's parameter list: a captured string of a text message,
      or a media object taken from the message. */
  datatype Parm = Str(s: string) | Obj(ref: Ref)
}
