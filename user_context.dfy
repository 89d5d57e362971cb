/** TelegramUserContext: the record a handler leaves on a user to route that user's next message. */
module UserContexts {
  import opened Common

  /** `nextMsgHandlerID` names the handler for the next message; `data` is opaque application
      data; `previousParms`, when present, are put in front of the next message's parameters. */
  datatype Context = Context(nextMsgHandlerID: string, data: Option<Ref>, previousParms: Option<seq<Parm>>)

  /** The constructor `new TelegramUserContext(nextMsgHandlerID, data = null, previousParms = null)`:
      an omitted (or null) argument is stored as null. */
  function NewContext(nextMsgHandlerID: string, data: Option<Ref> := None, previousParms: Option<seq<Parm>> := None): (c: Context)
    ensures c.nextMsgHandlerID == nextMsgHandlerID
    ensures c.data == data && c.previousParms == previousParms
  {
    Context(nextMsgHandlerID, data, previousParms)
  }

  /** The parameters the context's handler is meant to receive: the carried-over parameters,
      in order, ahead of the parameters of the new message (the spread at TelegramBotWrapper.js:71). */
  function CarriedParms(c: Context, parms: seq<Parm>): (all: seq<Parm>)
    ensures c.previousParms.None? ==> all == parms
    ensures c.previousParms.Some? ==> |all| == |c.previousParms.value| + |parms|
    ensures c.previousParms.Some? ==>
      (forall i :: 0 <= i < |c.previousParms.value| ==> all[i] == c.previousParms.value[i]) &&
      (forall j :: 0 <= j < |parms| ==> all[|c.previousParms.value| + j] == parms[j])
  {
    match c.previousParms
    case None => parms
    case Some(prev) => prev + parms
  }

  /** A context built with defaults carries nothing over: the handler sees exactly the new parameters. */
  lemma DefaultContextCarriesNothing(id: string, parms: seq<Parm>)
    ensures NewContext(id).data == None && NewContext(id).previousParms == None
    ensures CarriedParms(NewContext(id), parms) == parms
  {
  }
}
