/** TelegramCommand: a slash-command, the handlers it dispatches to by parameter count, and the
    regular expression that recognises it. */
module Commands {
  import opened Common

  /** A command as the constructor leaves it. `pattern` is the source text of the command's
      regular expression. `announce` is read by announceCommands; the constructor never sets it,
      so it is false unless the caller sets it afterwards. */
  datatype Command = Command(
    command: string,
    description: string,
    msgHandlerIDs: seq<string>,
    numParms: int,
    pattern: string,
    announce: bool)

  /** One optional parameter group, `(?: ([^\\s]*))?`: a non-capturing group that is optional,
      holding a space, then a capture of any run of non-whitespace. */
  const Group: string := GroupOpen + GroupCapture

  /** The opening of the non-capturing group and its space. */
  const GroupOpen: string := "(?: "

  /** The capture of the run, closing both groups and making the outer one optional. */
  const GroupCapture: string := "([^\\s]*))?"

  /** `n` parameter groups; none when `n` is zero or negative (the loop condition `i < numParms`). */
  function Groups(n: int): string
    decreases if n > 0 then n else 0
  {
    if n <= 0 then "" else Groups(n - 1) + Group
  }

  /** The pattern text of a command: a slash, the command, then `numParms` optional groups. */
  function Pattern(command: string, numParms: int): string {
    "/" + command + Groups(numParms)
  }

  /** `msgHandlerIDs || [command]`: an omitted list means the command's own name. */
  function DefaultIDs(command: string, msgHandlerIDs: Option<seq<string>>): seq<string> {
    match msgHandlerIDs
    case Some(ids) => ids
    case None => [command]
  }

  /** `numParms || (msgHandlerIDs.length - 1)`: `||` treats an explicit 0 like an omitted value. */
  function DefaultNumParms(ids: seq<string>, numParms: Option<int>): int {
    if numParms.Some? && numParms.value != 0 then numParms.value else |ids| - 1
  }

  /** The loop of the constructor that appends one group per parameter to `regexStr`. */
  method BuildPattern(command: string, numParms: int) returns (regexStr: string)
    ensures regexStr == Pattern(command, numParms)
    ensures CaptureGroupCount(regexStr[1 + |command|..]) == if numParms > 0 then numParms else 0
  {
    regexStr := "/" + command;
    var i := 0;
    while i < numParms
      invariant 0 <= i <= (if numParms > 0 then numParms else 0)
      invariant regexStr == Pattern(command, i)
    {
      PatternStep(command, i);
      regexStr := regexStr + Group;
      i := i + 1;
    }
    PatternShape(command, numParms);
  }

  /** One more parameter appends one more group to the pattern. */
  lemma PatternStep(command: string, i: nat)
    ensures Pattern(command, i + 1) == Pattern(command, i) + Group
  {
    var p := "/" + command;
    assert Groups(i + 1) == Groups(i) + Group;
    assert p + (Groups(i) + Group) == (p + Groups(i)) + Group;
  }

  /** `new TelegramCommand(command, description, msgHandlerIDs = null, numParms = null)`. */
  method NewCommand(command: string, description: string, msgHandlerIDs: Option<seq<string>> := None, numParms: Option<int> := None)
    returns (c: Command)
    ensures c.command == command && c.description == description
    ensures msgHandlerIDs.None? ==> c.msgHandlerIDs == [command] && (numParms.None? ==> c.numParms == 0)
    ensures msgHandlerIDs.Some? ==> c.msgHandlerIDs == msgHandlerIDs.value
    ensures numParms.None? || numParms == Some(0) ==> c.numParms == |c.msgHandlerIDs| - 1
    ensures numParms.Some? && numParms.value != 0 ==> c.numParms == numParms.value
    ensures c.pattern == Pattern(command, c.numParms)
    ensures !c.announce
  {
    var ids := DefaultIDs(command, msgHandlerIDs);
    var n := DefaultNumParms(ids, numParms);
    var regexStr := BuildPattern(command, n);
    c := Command(command, description, ids, n, regexStr, false);
  }

  /** The number of capturing groups in a pattern text: every `(` not followed by `?`. */
  function CaptureGroupCount(s: string): nat {
    if s == [] then 0
    else (if s[0] == '(' && !(|s| > 1 && s[1] == '?') then 1 else 0) + CaptureGroupCount(s[1..])
  }

  /** Counting splits at a boundary that does not fall right after an opening parenthesis. */
  lemma {:induction false} CaptureGroupCountAppend(a: string, b: string)
    requires a != [] ==> a[|a| - 1] != '('
    ensures CaptureGroupCount(a + b) == CaptureGroupCount(a) + CaptureGroupCount(b)
  {
    if a != [] {
      assert (a + b)[1..] == a[1..] + b;
      CaptureGroupCountAppend(a[1..], b);
    } else {
      assert a + b == b;
    }
  }

  /** A text without an opening parenthesis holds no capturing group. */
  lemma NoOpenParen(s: string)
    requires forall i :: 0 <= i < |s| ==> s[i] != '('
    ensures CaptureGroupCount(s) == 0
  {
  }

  /** A parameter group holds exactly one capturing group: the outer `(?:` does not capture. */
  lemma GroupHasOneCapture()
    ensures CaptureGroupCount(Group) == 1
  {
    OpenCapturesNothing();
    CaptureCapturesOnce();
    CaptureGroupCountAppend(GroupOpen, GroupCapture);
  }

  /** `(?: ` opens a group that does not capture. */
  lemma OpenCapturesNothing()
    ensures CaptureGroupCount(GroupOpen) == 0
  {
    NoOpenParen(GroupOpen[1..]);
  }

  /** `([^\\s]*))?` holds one capture: no other parenthesis opens after its first. */
  lemma CaptureCapturesOnce()
    ensures CaptureGroupCount(GroupCapture) == 1
  {
    NoOpenParen(GroupCapture[1..]);
  }

  /** `n` groups hold exactly `max(n, 0)` capturing groups. */
  lemma {:induction false} GroupsCount(n: int)
    ensures CaptureGroupCount(Groups(n)) == if n > 0 then n else 0
    decreases if n > 0 then n else 0
  {
    if n > 0 {
      GroupsCount(n - 1);
      GroupHasOneCapture();
      var g := Groups(n - 1);
      if g != [] {
        assert g[|g| - 1] == Group[|Group| - 1];
      }
      CaptureGroupCountAppend(g, Group);
    }
  }

  /** The pattern depends on the command and the parameter count alone, and its groups after the
      command text number exactly `max(numParms, 0)`. */
  lemma PatternShape(command: string, numParms: int)
    ensures Pattern(command, numParms)[..1 + |command|] == "/" + command
    ensures CaptureGroupCount(Pattern(command, numParms)[1 + |command|..]) == if numParms > 0 then numParms else 0
  {
    assert Pattern(command, numParms)[1 + |command|..] == Groups(numParms);
    GroupsCount(numParms);
  }

  /** Defaults: without handler ids the command handles itself and takes no parameters;
      with ids and no count, the count is one less than the number of ids; an explicit 0 counts as omitted. */
  lemma DefaultsOfConstructor(command: string, ids: seq<string>, k: int)
    ensures DefaultIDs(command, None) == [command] && DefaultNumParms(DefaultIDs(command, None), None) == 0
    ensures DefaultNumParms(ids, Some(0)) == DefaultNumParms(ids, None) == |ids| - 1
    ensures k != 0 ==> DefaultNumParms(ids, Some(k)) == k
  {
  }
}
