/** The incoming events the wrapper routes, one variant per message type it registers for
    (TelegramBotWrapper.js:27-36), each carrying what parameter extraction reads from it. */
module Messages {
  import opened Common

  /** A text event carries the regular-expression matches (`undefined` groups are None);
      a location carries the location and, when Telegram attached one, the venue. */
  datatype Payload =
    | Text(matches: seq<Option<string>>)
    | Photo(photo: seq<Parm>)
    | Video(video: Parm)
    | Voice(voice: Parm)
    | Audio(audio: Parm)
    | Document(document: Parm)
    | Location(location: Parm, venue: Option<Parm>)
    | Contact(contact: Parm)
    | Poll(poll: Parm)
    | Sticker(sticker: Parm)

  /** `options.type`: the name under which the event was registered. */
  function TypeName(p: Payload): string {
    match p
    case Text(_) => "text"
    case Photo(_) => "photo"
    case Video(_) => "video"
    case Voice(_) => "voice"
    case Audio(_) => "audio"
    case Document(_) => "document"
    case Location(_, _) => "location"
    case Contact(_) => "contact"
    case Poll(_) => "poll"
    case Sticker(_) => "sticker"
  }
}
