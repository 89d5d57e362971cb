/** getMessageParms: the parameter list a message hands to its handler, by message type. */
module Parms {
  import opened Common
  import opened Messages

  /** The defined groups of a match, in order, as string parameters; `undefined` groups are skipped,
      empty captures are kept. */
  function Captured(groups: seq<Option<string>>): (r: seq<Parm>)
    ensures |r| <= |groups|
    ensures forall k :: 0 <= k < |r| ==> r[k].Str?
  {
    if groups == [] then []
    else
      var last := groups[|groups| - 1];
      Captured(groups[..|groups| - 1]) + (if last.Some? then [Str(last.value)] else [])
  }

  /** The parameters of a text message: the captures after the full match (index 0). */
  function TextParms(matches: seq<Option<string>>): seq<Parm> {
    if matches == [] then [] else Captured(matches[1..])
  }

  /** What `getMessageParms` returns for each message type. */
  function ParmsOf(p: Payload): seq<Parm> {
    match p
    case Text(matches) => TextParms(matches)
    case Photo(photo) => photo
    case Video(video) => [video]
    case Voice(voice) => [voice]
    case Audio(audio) => [audio]
    case Document(document) => [document]
    case Location(location, venue) => if venue.Some? then [location, venue.value] else [location]
    case Contact(contact) => [contact]
    case Poll(poll) => [poll]
    case Sticker(sticker) => [sticker]
  }

  /** `getMessageParms(msg, options)`: the switch on the message type, with the loop over the
      text matches that pushes every defined group after the full match. */
  method GetMessageParms(p: Payload) returns (parms: seq<Parm>)
    ensures parms == ParmsOf(p)
  {
    parms := [];
    match p {
      case Text(matches) =>
        var i := 1;
        while i < |matches|
          invariant 1 <= i <= |matches| || (matches == [] && i == 1)
          invariant matches != [] ==> parms == Captured(matches[1..i])
          invariant matches == [] ==> parms == []
        {
          if matches[i].Some? {
            parms := parms + [Str(matches[i].value)];
          }
          assert matches[1..i + 1][..i - 1] == matches[1..i];
          i := i + 1;
        }
        if matches != [] {
          assert matches[1..i] == matches[1..];
        }
      case Photo(photo) => parms := photo;
      case Video(video) => parms := parms + [video];
      case Voice(voice) => parms := parms + [voice];
      case Audio(audio) => parms := parms + [audio];
      case Document(document) => parms := parms + [document];
      case Poll(poll) => parms := parms + [poll];
      case Location(location, venue) =>
        parms := parms + [location];
        if venue.Some? {
          parms := parms + [venue.value];
        }
      case Contact(contact) => parms := parms + [contact];
      case Sticker(sticker) => parms := parms + [sticker];
    }
  }

  /** Extraction distributes over concatenation: it keeps the order of the groups. */
  lemma {:induction false} CapturedAppend(a: seq<Option<string>>, b: seq<Option<string>>)
    ensures Captured(a + b) == Captured(a) + Captured(b)
    decreases |b|
  {
    if b == [] {
      assert a + b == a;
    } else {
      var b' := b[..|b| - 1];
      assert (a + b)[..|a + b| - 1] == a + b';
      CapturedAppend(a, b');
    }
  }

  /** An undefined group contributes nothing; a defined one, even the empty string, contributes itself. */
  lemma CapturedSingle(g: Option<string>)
    ensures g.None? ==> Captured([g]) == []
    ensures g.Some? ==> Captured([g]) == [Str(g.value)]
  {
    assert [g][..0] == [];
  }

  /** When every group is defined, nothing is dropped and the order is kept. */
  lemma {:induction false} CapturedAllDefined(groups: seq<Option<string>>)
    requires forall i :: 0 <= i < |groups| ==> groups[i].Some?
    ensures |Captured(groups)| == |groups|
    ensures forall i :: 0 <= i < |groups| ==> Captured(groups)[i] == Str(groups[i].value)
  {
    if groups != [] {
      CapturedAllDefined(groups[..|groups| - 1]);
    }
  }

  /** Text parameters never outnumber the groups after the full match. */
  lemma TextParmsBound(matches: seq<Option<string>>)
    requires |matches| >= 1
    ensures |TextParms(matches)| <= |matches| - 1
  {
  }

  /** Photo parameters are the photo's size list unchanged; the single-object types give exactly
      that object; a location gives the location, then the venue when one is attached. */
  lemma ParmsByType(p: Payload)
    ensures p.Photo? ==> ParmsOf(p) == p.photo
    ensures p.Video? ==> ParmsOf(p) == [p.video]
    ensures p.Voice? ==> ParmsOf(p) == [p.voice]
    ensures p.Audio? ==> ParmsOf(p) == [p.audio]
    ensures p.Document? ==> ParmsOf(p) == [p.document]
    ensures p.Contact? ==> ParmsOf(p) == [p.contact]
    ensures p.Poll? ==> ParmsOf(p) == [p.poll]
    ensures p.Sticker? ==> ParmsOf(p) == [p.sticker]
    ensures p.Location? && p.venue.None? ==> ParmsOf(p) == [p.location]
    ensures p.Location? && p.venue.Some? ==> ParmsOf(p) == [p.location, p.venue.value]
  {
  }
}
