/** What the two kinds of text pattern capture, stated as scanners instead of a regular-expression
    engine: a command pattern `/cmd(?: ([^\s]*))?...` (TelegramCommand.js:19-22) and the
    non-command pattern `^([^/].*)` (TelegramBotWrapper.js:27). A match is the array `exec`
    returns: the full match at index 0, then one entry per group, None for an `undefined` group. */
module Matching {
  import opened Common
  import opened Commands
  import opened Parms

  /** The characters JavaScript's `\s` matches. */
  predicate IsWhitespace(c: char) {
    c == ' ' || c == '\t' || c == '\n' || c == '\r' || c == '\U{000B}' || c == '\U{000C}' ||
    c == '\U{00A0}' || c == '\U{1680}' || ('\U{2000}' <= c <= '\U{200A}') ||
    c == '\U{2028}' || c == '\U{2029}' || c == '\U{202F}' || c == '\U{205F}' ||
    c == '\U{3000}' || c == '\U{FEFF}'
  }

  predicate NoWhitespace(s: string) {
    forall i :: 0 <= i < |s| ==> !IsWhitespace(s[i])
  }

  /** `[^\s]*`, greedy: the longest prefix without whitespace. */
  function NonSpaceRun(s: string): (run: string)
    ensures |run| <= |s|
  {
    if s == [] || IsWhitespace(s[0]) then [] else [s[0]] + NonSpaceRun(s[1..])
  }

  /** The run is a prefix, holds no whitespace, and stops only at whitespace or at the end. */
  lemma {:induction false} NonSpaceRunGreedy(s: string)
    ensures var run := NonSpaceRun(s);
      run == s[..|run|] && NoWhitespace(run) && (|run| < |s| ==> IsWhitespace(s[|run|]))
  {
    if s != [] && !IsWhitespace(s[0]) {
      NonSpaceRunGreedy(s[1..]);
      var run, r := NonSpaceRun(s), NonSpaceRun(s[1..]);
      assert run == [s[0]] + r;
      forall i | 0 <= i < |run| ensures !IsWhitespace(run[i]) {
        if i > 0 { assert run[i] == r[i - 1]; }
      }
    }
  }

  /** The `n` optional groups, scanned from `rest`, the text right after `/cmd`: a group is present
      when the next character is a space, and then captures the run of non-whitespace after it.
      Returns the captures and the number of characters consumed. */
  function ScanGroups(rest: string, n: int): (r: (seq<Option<string>>, nat))
    ensures |r.0| == if n > 0 then n else 0
    ensures r.1 <= |rest|
    decreases if n > 0 then n else 0
  {
    if n <= 0 then ([], 0)
    else if rest != [] && rest[0] == ' ' then
      var run := NonSpaceRun(rest[1..]);
      var tail := ScanGroups(rest[1 + |run|..], n - 1);
      ([Some(run)] + tail.0, 1 + |run| + tail.1)
    else (Undefined(n), 0)
  }

  /** `lit` occurs in `text` at position `j`. */
  predicate OccursAt(lit: string, text: string, j: nat) {
    j + |lit| <= |text| && text[j..j + |lit|] == lit
  }

  /** The first position at or after `from` where `lit` occurs in `text`. */
  function FindFrom(lit: string, text: string, from: nat): (k: Option<nat>)
    ensures k.Some? ==> from <= k.value && OccursAt(lit, text, k.value)
    ensures k.Some? ==> forall j: nat :: from <= j < k.value ==> !OccursAt(lit, text, j)
    ensures k.None? ==> forall j: nat :: from <= j ==> !OccursAt(lit, text, j)
    decreases |text| - from
  {
    if from + |lit| > |text| then None
    else if text[from..from + |lit|] == lit then Some(from)
    else FindFrom(lit, text, from + 1)
  }

  /** The match of a command's pattern against a message text: the pattern's optional groups make
      it match wherever `/cmd` first occurs; None when it does not occur. */
  function MatchCommand(command: string, numParms: int, text: string): Option<seq<Option<string>>> {
    var lit := "/" + command;
    match FindFrom(lit, text, 0)
    case None => None
    case Some(k) =>
      var groups := ScanGroups(text[k + |lit|..], numParms);
      Some([Some(text[k..k + |lit| + groups.1])] + groups.0)
  }

  /** The line terminators JavaScript's `.` does not match. */
  predicate IsLineTerminator(c: char) {
    c == '\n' || c == '\r' || c == '\U{2028}' || c == '\U{2029}'
  }

  /** `.*`, greedy: the longest prefix without a line terminator. */
  function LineRun(s: string): (run: string)
    ensures |run| <= |s| && run == s[..|run|]
    ensures forall i :: 0 <= i < |run| ==> !IsLineTerminator(run[i])
    ensures |run| < |s| ==> IsLineTerminator(s[|run|])
  {
    if s == [] || IsLineTerminator(s[0]) then [] else [s[0]] + LineRun(s[1..])
  }

  /** The match of `^([^/].*)`: one character that is not a slash (a line terminator included),
      then the rest of that line; the group equals the full match. */
  function MatchNonCommand(text: string): Option<seq<Option<string>>> {
    if text != [] && text[0] != '/' then
      var line := [text[0]] + LineRun(text[1..]);
      Some([Some(line), Some(line)])
    else None
  }

  /** The text a list of arguments takes after the command: each one preceded by one space. */
  function Join(args: seq<string>): string {
    if args == [] then [] else [' '] + args[0] + Join(args[1..])
  }

  /** Every argument as a defined capture. */
  function Defined(args: seq<string>): (r: seq<Option<string>>)
    ensures |r| == |args| && forall i :: 0 <= i < |args| ==> r[i] == Some(args[i])
  {
    seq(|args|, i requires 0 <= i < |args| => Some(args[i]))
  }

  /** `k` undefined groups. */
  function Undefined(k: nat): (r: seq<Option<string>>)
    ensures |r| == k && forall i :: 0 <= i < k ==> r[i] == None
  {
    seq(k, _ => None)
  }

  /** Every argument as a string parameter. */
  function Strs(args: seq<string>): (r: seq<Parm>)
    ensures |r| == |args| && forall i :: 0 <= i < |args| ==> r[i] == Str(args[i])
  {
    seq(|args|, i requires 0 <= i < |args| => Str(args[i]))
  }

  /** Once a group is absent, every later group is absent too. */
  predicate Contiguous(caps: seq<Option<string>>) {
    forall i, j :: 0 <= i < j < |caps| && caps[i].None? ==> caps[j].None?
  }

  /** Every present capture is a run of non-whitespace, possibly empty. */
  predicate WordCaptures(caps: seq<Option<string>>) {
    forall i :: 0 <= i < |caps| && caps[i].Some? ==> NoWhitespace(caps[i].value)
  }

  /** The groups of a command match are contiguous and hold whitespace-free words. */
  lemma {:induction false} ScanGroupsShape(rest: string, n: int)
    ensures Contiguous(ScanGroups(rest, n).0) && WordCaptures(ScanGroups(rest, n).0)
    decreases if n > 0 then n else 0
  {
    if n > 0 && rest != [] && rest[0] == ' ' {
      var run := NonSpaceRun(rest[1..]);
      var tail := ScanGroups(rest[1 + |run|..], n - 1).0;
      NonSpaceRunGreedy(rest[1..]);
      ScanGroupsShape(rest[1 + |run|..], n - 1);
      var caps := ScanGroups(rest, n).0;
      assert caps == [Some(run)] + tail;
      forall i, j | 0 <= i < j < |caps| && caps[i].None?
        ensures caps[j].None?
      {
        assert caps[i] == tail[i - 1] && caps[j] == tail[j - 1];
      }
      forall i | 0 <= i < |caps| && caps[i].Some?
        ensures NoWhitespace(caps[i].value)
      {
        if i > 0 {
          assert caps[i] == tail[i - 1];
        }
      }
    }
  }

  /** A command match has the full match and exactly one entry per group of the command's pattern,
      and the full match starts with `/cmd`. */
  lemma MatchCommandShape(command: string, numParms: int, text: string)
    requires MatchCommand(command, numParms, text).Some?
    ensures var m := MatchCommand(command, numParms, text).value;
      |m| == 1 + (if numParms > 0 then numParms else 0) &&
      |m| - 1 == CaptureGroupCount(Pattern(command, numParms)[1 + |command|..]) &&
      m[0].Some? && |m[0].value| >= 1 + |command| && m[0].value[..1 + |command|] == "/" + command
  {
    PatternShape(command, numParms);
  }

  /** Hence a command's text parameters never outnumber its declared parameter count. */
  lemma CommandParmsBound(command: string, numParms: int, text: string)
    requires MatchCommand(command, numParms, text).Some?
    ensures |TextParms(MatchCommand(command, numParms, text).value)| <= if numParms > 0 then numParms else 0
  {
    TextParmsBound(MatchCommand(command, numParms, text).value);
  }

  /** The non-space run stops exactly at the end of a whitespace-free word followed by whitespace. */
  lemma {:induction false} NonSpaceRunOfWord(a: string, s: string)
    requires NoWhitespace(a)
    requires s == [] || IsWhitespace(s[0])
    ensures NonSpaceRun(a + s) == a
  {
    if a != [] {
      assert (a + s)[1..] == a[1..] + s;
      NonSpaceRunOfWord(a[1..], s);
    } else {
      assert a + s == s;
    }
  }

  /** Scanning the text of whitespace-free arguments gives them back in order, then absent groups.
      The text after the arguments must end the last word, and must not start another group when
      groups are left over. */
  lemma {:induction false} ScanGroupsRoundTrip(args: seq<string>, tail: string, n: int)
    requires forall i :: 0 <= i < |args| ==> NoWhitespace(args[i])
    requires |args| <= n
    requires tail == [] || IsWhitespace(tail[0])
    requires |args| < n ==> tail == [] || tail[0] != ' '
    ensures ScanGroups(Join(args) + tail, n).0 == Defined(args) + Undefined(n - |args|)
    ensures ScanGroups(Join(args) + tail, n).1 == |Join(args)|
    decreases |args|
  {
    if args == [] {
      assert Join(args) + tail == tail;
      assert Defined(args) + Undefined(n) == Undefined(n);
    } else {
      ScanGroupsRoundTrip(args[1..], tail, n - 1);
      ScanGroupsRoundTripStep(args, tail, n);
    }
  }

  /** The inductive step of the round trip: from the scan of the remaining arguments to the scan of all. */
  lemma ScanGroupsRoundTripStep(args: seq<string>, tail: string, n: int)
    requires args != [] && |args| <= n && NoWhitespace(args[0])
    requires tail == [] || IsWhitespace(tail[0])
    requires ScanGroups(Join(args[1..]) + tail, n - 1).0 == Defined(args[1..]) + Undefined(n - |args|)
    requires ScanGroups(Join(args[1..]) + tail, n - 1).1 == |Join(args[1..])|
    ensures ScanGroups(Join(args) + tail, n).0 == Defined(args) + Undefined(n - |args|)
    ensures ScanGroups(Join(args) + tail, n).1 == |Join(args)|
  {
    ScanGroupsStep(args, tail, n);
    DefinedCons(args, n - |args|);
  }

  /** One argument scanned: the first group captures it, and the scan goes on after it. */
  lemma ScanGroupsStep(args: seq<string>, tail: string, n: int)
    requires args != [] && n > 0 && NoWhitespace(args[0])
    requires tail == [] || IsWhitespace(tail[0])
    ensures var T := ScanGroups(Join(args[1..]) + tail, n - 1);
      ScanGroups(Join(args) + tail, n) == ([Some(args[0])] + T.0, 1 + |args[0]| + T.1)
    ensures |Join(args)| == 1 + |args[0]| + |Join(args[1..])|
  {
    var a, after := args[0], Join(args[1..]) + tail;
    Assoc([' '] + a, Join(args[1..]), tail);
    JoinStartsWithSpace(args[1..], tail);
    NonSpaceRunOfWord(a, after);
    ScanGroupsSpaced(Join(args) + tail, a, after, n);
  }

  /** The text after a word is either the tail or starts with the space before the next argument. */
  lemma JoinStartsWithSpace(args: seq<string>, tail: string)
    requires tail == [] || IsWhitespace(tail[0])
    ensures Join(args) + tail == [] || IsWhitespace((Join(args) + tail)[0])
  {
    if args == [] {
      assert Join(args) + tail == tail;
    }
  }

  /** One step of the scan: a space followed by a word whose run ends there starts a present
      group capturing that word. */
  lemma ScanGroupsSpaced(text: string, a: string, after: string, n: int)
    requires n > 0 && text == [' '] + a + after && NonSpaceRun(a + after) == a
    ensures ScanGroups(text, n) == ([Some(a)] + ScanGroups(after, n - 1).0, 1 + |a| + ScanGroups(after, n - 1).1)
  {
    SpacedParts(text, a, after);
  }

  /** The pieces of a space, a word and what follows it. */
  lemma SpacedParts(text: string, a: string, after: string)
    requires text == [' '] + a + after
    ensures text != [] && text[0] == ' '
    ensures text[1..] == a + after && text[1 + |a|..] == after
  {
    Assoc([' '], a, after);
    DropPrefix([' '], a + after);
    DropPrefix(a, after);
    assert text[1 + |a|..] == text[1..][|a|..];
  }

  /** Splitting off the first defined capture. */
  lemma DefinedCons(args: seq<string>, k: nat)
    requires args != []
    ensures Defined(args) + Undefined(k) == [Some(args[0])] + (Defined(args[1..]) + Undefined(k))
  {
  }

  /** Absent groups contribute no parameters. */
  lemma {:induction false} CapturedUndefined(k: nat)
    ensures Captured(Undefined(k)) == []
  {
    if k > 0 {
      assert Undefined(k)[..k - 1] == Undefined(k - 1);
      CapturedUndefined(k - 1);
    }
  }

  /** End to end: a command sent with at most `numParms` whitespace-free arguments reaches the
      handler selection with exactly those arguments, in order. */
  lemma CommandRoundTrip(command: string, numParms: int, args: seq<string>, tail: string)
    requires forall i :: 0 <= i < |args| ==> NoWhitespace(args[i])
    requires |args| <= numParms
    requires tail == [] || IsWhitespace(tail[0])
    requires |args| < numParms ==> tail == [] || tail[0] != ' '
    ensures var text := "/" + command + Join(args) + tail;
      MatchCommand(command, numParms, text).Some? &&
      TextParms(MatchCommand(command, numParms, text).value) == Strs(args)
  {
    var lit, body := "/" + command, Join(args) + tail;
    Assoc(lit, Join(args), tail);
    MatchParms(command, numParms, body);
    ScanGroupsRoundTrip(args, tail, numParms);
    CapturedArgs(args, numParms - |args|);
  }

  /** A text that starts with `/cmd` yields the defined groups scanned from right after it. */
  lemma MatchParms(command: string, numParms: int, body: string)
    ensures var m := MatchCommand(command, numParms, "/" + command + body);
      m.Some? && TextParms(m.value) == Captured(ScanGroups(body, numParms).0)
  {
    MatchAtStart(command, numParms, body);
  }

  /** A text that starts with `/cmd` matches there, its groups scanned from right after it. */
  lemma MatchAtStart(command: string, numParms: int, body: string)
    ensures var m := MatchCommand(command, numParms, "/" + command + body);
      m.Some? && m.value[1..] == ScanGroups(body, numParms).0
  {
    var lit := "/" + command;
    assert (lit + body)[0..|lit|] == lit;
    assert FindFrom(lit, lit + body, 0) == Some(0);
    assert (lit + body)[|lit|..] == body;
  }

  /** The defined captures of the arguments, followed by undefined ones, give the arguments. */
  lemma CapturedArgs(args: seq<string>, k: nat)
    ensures Captured(Defined(args) + Undefined(k)) == Strs(args)
  {
    CapturedAppend(Defined(args), Undefined(k));
    CapturedAllDefined(Defined(args));
    CapturedUndefined(k);
    assert Captured(Defined(args)) == Strs(args);
  }

  /** Concatenation regrouped. */
  lemma Assoc<T>(x: seq<T>, y: seq<T>, z: seq<T>)
    ensures (x + y) + z == x + (y + z)
  {
  }

  /** What follows a prefix. */
  lemma DropPrefix<T>(x: seq<T>, y: seq<T>)
    ensures (x + y)[|x|..] == y
  {
  }

  /** The non-command pattern fires exactly for text whose first character is not a slash; it
      then yields one parameter, the first line of the text. */
  lemma NonCommandMatch(text: string)
    ensures MatchNonCommand(text).Some? <==> text != [] && text[0] != '/'
    ensures MatchNonCommand(text).Some? ==>
      var m := MatchNonCommand(text).value;
      |m| == 2 && m[0] == m[1] && m[1].Some? &&
      var line := m[1].value;
      1 <= |line| <= |text| && line == text[..|line|] &&
      (forall i :: 1 <= i < |line| ==> !IsLineTerminator(line[i])) &&
      (|line| < |text| ==> IsLineTerminator(text[|line|])) &&
      TextParms(m) == [Str(line)]
  {
    if text != [] && text[0] != '/' {
      var m := MatchNonCommand(text).value;
      var run := LineRun(text[1..]);
      var line := [text[0]] + run;
      assert text == [text[0]] + text[1..];
      forall i | 1 <= i < |line|
        ensures !IsLineTerminator(line[i])
      {
        assert line[i] == run[i - 1];
      }
      CapturedSingle(m[1]);
      assert m[1..] == [m[1]];
    }
  }
}
