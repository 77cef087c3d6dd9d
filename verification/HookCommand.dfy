/** The Cursor startup hook: how its command line is quoted, how an installed
    command is recognised, and what installing and removing leave behind. */
module HookCommand {
  import opened Text

  /** strings.ReplaceAll: leftmost matches, not overlapping. */
  function ReplaceAll(s: string, part: string, with_: string): string
    requires part != ""
  {
    if s == "" then ""
    else if part <= s then with_ + ReplaceAll(s[|part|..], part, with_)
    else [s[0]] + ReplaceAll(s[1..], part, with_)
  }

  /** Single quotes on Unix, double quotes on Windows. */
  function QuoteOf(windows: bool): string {
    if windows then "\"" else "'"
  }

  /** How the quote itself is written inside quotes. */
  function EscapeOf(windows: bool): string {
    if windows then "\\\"" else "'\"'\"'"
  }

  function Escaped(value: string, windows: bool): string {
    ReplaceAll(value, QuoteOf(windows), EscapeOf(windows))
  }

  function Unescaped(text: string, windows: bool): string {
    ReplaceAll(text, EscapeOf(windows), QuoteOf(windows))
  }

  /** shellQuoted. */
  function Quoted(value: string, windows: bool): string {
    QuoteOf(windows) + Escaped(value, windows) + QuoteOf(windows)
  }

  /** Where the opened quotation closes, or -1. */
  function CloseIn(s: string, windows: bool): (k: int)
    ensures -1 <= k < |s|
    ensures k >= 0 ==> s[k] == QuoteOf(windows)[0]
  {
    if s == "" then -1
    else if EscapeOf(windows) <= s then
      var k := CloseIn(s[|EscapeOf(windows)|..], windows);
      if k < 0 then -1 else k + |EscapeOf(windows)|
    else if s[0] == QuoteOf(windows)[0] then 0
    else
      var k := CloseIn(s[1..], windows);
      if k < 0 then -1 else k + 1
  }

  const MIDDLE := " hook --config "
  const ENDING := " --harness cursor"

  predicate HasSuffix(s: string, ending: string) {
    |ending| <= |s| && s[|s| - |ending|..] == ending
  }

  /** The program a command in one style of quotes runs, and whether the command
      has the installed form; the name test is the caller's. */
  function ParsedAs(command: string, windows: bool, exe: string -> bool): Option<(string, bool)> {
    if !(QuoteOf(windows) <= command) then None
    else
      var k := CloseIn(command[1..], windows);
      if k < 0 then None
      else
        var binary := Unescaped(command[1..k + 1], windows);
        Some((binary, exe(binary) && MIDDLE <= command[k + 2..] && HasSuffix(command, ENDING)))
  }

  /** grasshopperHookBinary: single quotes are tried first, then double. */
  function HookBinary(command: string, exe: string -> bool): (string, bool) {
    match ParsedAs(command, false, exe)
    case Some(found) => found
    case None =>
      match ParsedAs(command, true, exe)
      case Some(found) => found
      case None => ("", false)
  }

  function CommandFor(binary: string, config: string, windows: bool): string {
    Quoted(binary, windows) + MIDDLE + Quoted(config, windows) + ENDING
  }

  /** One step of the scan, at an index. */
  lemma CloseAt(command: string, end: nat, windows: bool)
    requires end < |command|
    ensures var here := CloseIn(command[end..], windows);
            if EscapeOf(windows) <= command[end..] then
              var n := |EscapeOf(windows)|;
              var rest := CloseIn(command[end + n..], windows);
              here == if rest < 0 then -1 else rest + n
            else if command[end] != QuoteOf(windows)[0] then
              var rest := CloseIn(command[end + 1..], windows);
              here == if rest < 0 then -1 else rest + 1
            else here == 0
  {
    if EscapeOf(windows) <= command[end..] {
      assert command[end..][|EscapeOf(windows)|..] == command[end + |EscapeOf(windows)|..];
    } else {
      assert command[end..][1..] == command[end + 1..];
    }
  }

  /** The scan as the source runs it, with an index that skips escapes. */
  method ScanQuoted(command: string, windows: bool, exe: string -> bool) returns (r: Option<(string, bool)>)
    ensures r == ParsedAs(command, windows, exe)
  {
    hide Unescaped, HasSuffix, CloseIn;
    if !(QuoteOf(windows) <= command) {
      return None;
    }
    ghost var whole := CloseIn(command[1..], windows);
    var end := 1;
    while end < |command|
      invariant 1 <= end <= |command|
      invariant var rest := CloseIn(command[end..], windows);
                whole == if rest < 0 then -1 else rest + end - 1
    {
      CloseAt(command, end, windows);
      if EscapeOf(windows) <= command[end..] {
        end := end + |EscapeOf(windows)|;
        continue;
      }
      if command[end] != QuoteOf(windows)[0] {
        end := end + 1;
        continue;
      }
      var binary := Unescaped(command[1..end], windows);
      return Some((binary, exe(binary) && MIDDLE <= command[end + 1..] && HasSuffix(command, ENDING)));
    }
    r := None;
  }

  method FindHookBinary(command: string, exe: string -> bool) returns (binary: string, ok: bool)
    ensures (binary, ok) == HookBinary(command, exe)
  {
    var found := ScanQuoted(command, false, exe);
    if found.None? {
      found := ScanQuoted(command, true, exe);
    }
    if found.None? {
      return "", false;
    }
    binary, ok := found.value.0, found.value.1;
  }

  // ----- the round trip -----

  /** The one value the Windows form cannot carry: its last backslash would
      escape the closing quote. */
  predicate EndsInBackslash(value: string) {
    value != "" && value[|value| - 1] == '\\'
  }

  /** Nothing after the escaped text can be mistaken for part of it. */
  predicate Apart(value: string, rest: string, windows: bool) {
    if windows then EndsInBackslash(value) ==> !("\"" <= rest) else true
  }

  lemma EscapedCons(value: string, windows: bool)
    requires value != ""
    ensures Escaped(value, windows) ==
            (if value[0] == QuoteOf(windows)[0] then EscapeOf(windows) else [value[0]]) + Escaped(value[1..], windows)
  {
  }

  lemma ReadsEscape(rest: string, windows: bool)
    ensures Unescaped(EscapeOf(windows) + rest, windows) == QuoteOf(windows) + Unescaped(rest, windows)
    ensures var k := CloseIn(rest, windows);
            CloseIn(EscapeOf(windows) + rest, windows) == if k < 0 then -1 else k + |EscapeOf(windows)|
  {
    var s := EscapeOf(windows) + rest;
    assert EscapeOf(windows) <= s;
    assert s[|EscapeOf(windows)|..] == rest;
  }

  lemma ReadsPlain(c: char, rest: string, windows: bool)
    requires c != QuoteOf(windows)[0] && !(EscapeOf(windows) <= [c] + rest)
    ensures Unescaped([c] + rest, windows) == [c] + Unescaped(rest, windows)
    ensures var k := CloseIn(rest, windows);
            CloseIn([c] + rest, windows) == if k < 0 then -1 else k + 1
  {
    var s := [c] + rest;
    assert s[0] == c && s[1..] == rest;
  }

  /** The text escaping starts with is a quote's escape or the value's own first
      character, and no escape straddles the two. */
  lemma NoStraddle(value: string, rest: string, windows: bool)
    requires value != "" && value[0] != QuoteOf(windows)[0] && Apart(value, rest, windows)
    ensures !(EscapeOf(windows) <= Escaped(value, windows) + rest)
  {
    var s := Escaped(value, windows) + rest;
    EscapedCons(value, windows);
    assert s[0] == value[0];
    if windows && value[0] == '\\' {
      if |value| == 1 {
        assert Escaped(value[1..], windows) == "";
        assert s == ['\\'] + rest;
        assert rest != "" ==> s[1] == rest[0] != '"';
      } else {
        EscapedCons(value[1..], windows);
        assert s[1] == Escaped(value[1..], windows)[0];
      }
    }
  }

  /** Peeling one character of the value off escaped text. */
  lemma EscapedSplit(value: string, rest: string, windows: bool)
    requires value != "" && Apart(value, rest, windows)
    ensures Apart(value[1..], rest, windows)
    ensures var more := Escaped(value[1..], windows) + rest;
            if value[0] == QuoteOf(windows)[0] then Escaped(value, windows) + rest == EscapeOf(windows) + more
            else Escaped(value, windows) + rest == [value[0]] + more && !(EscapeOf(windows) <= [value[0]] + more)
    ensures |Escaped(value, windows)| ==
            |Escaped(value[1..], windows)| + if value[0] == QuoteOf(windows)[0] then |EscapeOf(windows)| else 1
  {
    hide ReplaceAll;
    EscapedCons(value, windows);
    var more := Escaped(value[1..], windows) + rest;
    if value[0] == QuoteOf(windows)[0] {
      assert Escaped(value, windows) + rest == EscapeOf(windows) + more;
    } else {
      NoStraddle(value, rest, windows);
      assert Escaped(value, windows) + rest == [value[0]] + more;
    }
  }

  lemma {:induction false} UnescapeEscaped(value: string, rest: string, windows: bool)
    requires Apart(value, rest, windows)
    ensures Unescaped(Escaped(value, windows) + rest, windows) == value + Unescaped(rest, windows)
  {
    hide Unescaped, Apart, EscapeOf;
    if value == "" {
      assert Escaped(value, windows) + rest == rest;
    } else {
      hide Escaped;
      EscapedSplit(value, rest, windows);
      var more := Escaped(value[1..], windows) + rest;
      UnescapeEscaped(value[1..], rest, windows);
      assert value == [value[0]] + value[1..];
      if value[0] == QuoteOf(windows)[0] {
        ReadsEscape(more, windows);
        assert QuoteOf(windows) == [value[0]];
      } else {
        ReadsPlain(value[0], more, windows);
      }
    }
  }

  lemma {:induction false} ClosesAfter(value: string, rest: string, windows: bool)
    requires Apart(value, rest, windows)
    ensures var k := CloseIn(rest, windows);
            CloseIn(Escaped(value, windows) + rest, windows) == if k < 0 then -1 else |Escaped(value, windows)| + k
  {
    hide CloseIn, Apart, EscapeOf;
    if value == "" {
      assert Escaped(value, windows) + rest == rest;
    } else {
      hide Escaped;
      EscapedSplit(value, rest, windows);
      var more := Escaped(value[1..], windows) + rest;
      ClosesAfter(value[1..], rest, windows);
      if value[0] == QuoteOf(windows)[0] {
        ReadsEscape(more, windows);
      } else {
        ReadsPlain(value[0], more, windows);
      }
    }
  }

  lemma StyleOf(binary: string, config: string, windows: bool, exe: string -> bool)
    ensures HookBinary(CommandFor(binary, config, windows), exe) ==
            match ParsedAs(CommandFor(binary, config, windows), windows, exe)
            case Some(found) => found
            case None => if windows then ("", false) else HookBinary(CommandFor(binary, config, windows), exe)
  {
    assert CommandFor(binary, config, windows)[0] == QuoteOf(windows)[0];
  }

  /** The command as the parser sees it after the opening quote. */
  lemma CommandTail(binary: string, config: string, windows: bool)
    ensures CommandFor(binary, config, windows)[1..] ==
            Escaped(binary, windows) + (QuoteOf(windows) + (MIDDLE + Quoted(config, windows) + ENDING))
  {
    hide Escaped;
    assert CommandFor(binary, config, windows) ==
           Quoted(binary, windows) + MIDDLE + Quoted(config, windows) + ENDING;
    hide CommandFor;
    assert Quoted(binary, windows) == QuoteOf(windows) + Escaped(binary, windows) + QuoteOf(windows);
    hide Quoted;
    AfterQuote(QuoteOf(windows), Escaped(binary, windows), MIDDLE, Quoted(config, windows), ENDING);
  }

  lemma AfterQuote(quote: string, text: string, a: string, b: string, c: string)
    requires |quote| == 1
    ensures (quote + text + quote + a + b + c)[1..] == text + (quote + (a + b + c))
  {
  }

  lemma CommandEnds(binary: string, config: string, windows: bool)
    ensures HasSuffix(CommandFor(binary, config, windows), ENDING)
  {
    var head := Quoted(binary, windows) + MIDDLE + Quoted(config, windows);
    assert CommandFor(binary, config, windows) == head + ENDING;
    assert (head + ENDING)[|head|..] == ENDING;
  }

  /** The parts of a command the parser looks at, once it knows where the
      quotation closes. */
  lemma CommandParts(binary: string, config: string, windows: bool)
    ensures var command := CommandFor(binary, config, windows);
            var n := |Escaped(binary, windows)|;
            && |command| > n + 2 && QuoteOf(windows) <= command
            && command[1..n + 1] == Escaped(binary, windows)
            && command[n + 2..] == MIDDLE + Quoted(config, windows) + ENDING
            && MIDDLE <= command[n + 2..]
  {
    hide ReplaceAll;
    var e := Escaped(binary, windows);
    var after := MIDDLE + Quoted(config, windows) + ENDING;
    assert CommandFor(binary, config, windows) == QuoteOf(windows) + e + QuoteOf(windows) + after;
  }

  /** What a command has to be to be taken for one of ours: a quoted program that
      passes the name test, then the fixed middle, and the fixed ending. */
  lemma RecognisedForm(command: string, exe: string -> bool) returns (windows: bool, text: string, rest: string)
    requires HookBinary(command, exe).1
    ensures command == QuoteOf(windows) + text + QuoteOf(windows) + rest
    ensures " hook --config " <= rest && HasSuffix(command, " --harness cursor")
    ensures HookBinary(command, exe).0 == Unescaped(text, windows) && exe(Unescaped(text, windows))
    ensures CloseIn(text + QuoteOf(windows) + rest, windows) == |text|
  {
    hide CloseIn, Unescaped, ParsedAs, HasSuffix;
    windows := ParsedAs(command, false, exe).None?;
    text, rest := ParsedForm(command, windows, exe);
  }

  lemma ParsedForm(command: string, windows: bool, exe: string -> bool) returns (text: string, rest: string)
    requires ParsedAs(command, windows, exe).Some? && ParsedAs(command, windows, exe).value.1
    ensures command == QuoteOf(windows) + text + QuoteOf(windows) + rest
    ensures " hook --config " <= rest && HasSuffix(command, " --harness cursor")
    ensures ParsedAs(command, windows, exe).value.0 == Unescaped(text, windows) && exe(Unescaped(text, windows))
    ensures CloseIn(text + QuoteOf(windows) + rest, windows) == |text|
  {
    hide CloseIn, Unescaped, HasSuffix;
    var quote := QuoteOf(windows);
    var k := CloseIn(command[1..], windows);
    text, rest := command[1..k + 1], command[k + 2..];
    QuoteAt(command, quote, k);
  }

  lemma QuoteAt(command: string, quote: string, k: nat)
    requires |quote| == 1 && quote <= command && k < |command| - 1 && command[1..][k] == quote[0]
    ensures var text, rest := command[1..k + 1], command[k + 2..];
            command == quote + text + quote + rest && command[1..] == text + quote + rest
  {
  }

  /** And such a command is one of ours, for the program it was quoted from. */
  lemma RecognisesForm(binary: string, args: string, windows: bool, exe: string -> bool)
    requires windows ==> !EndsInBackslash(binary)
    ensures HookBinary(Quoted(binary, windows) + MIDDLE + args + ENDING, exe) == (binary, exe(binary))
  {
    var command := Quoted(binary, windows) + MIDDLE + args + ENDING;
    var quote, e, after := QuoteOf(windows), Escaped(binary, windows), MIDDLE + args + ENDING;
    assert command == quote + e + quote + after;
    assert HasSuffix(command, ENDING) by { SuffixOf(quote + e + quote + MIDDLE + args, ENDING); }
    hide *;
    assert MIDDLE <= after;
    ClosesAtQuote(after, windows);
    ApartFrom(binary, after, windows);
    ClosesAfter(binary, quote + after, windows);
    ReadsEscaped(binary, windows);
    PartsParsed(command, windows, exe, e, after);
  }

  lemma ApartFrom(value: string, after: string, windows: bool)
    requires windows ==> !EndsInBackslash(value)
    ensures Apart(value, after, windows) && Apart(value, QuoteOf(windows) + after, windows) && Apart(value, "", windows)
  {
  }

  lemma ReadsEscaped(value: string, windows: bool)
    requires windows ==> !EndsInBackslash(value)
    ensures Unescaped(Escaped(value, windows), windows) == value
  {
    hide *;
    ApartFrom(value, "", windows);
    UnescapeEscaped(value, "", windows);
    UnescapesNothing(windows);
    assert Escaped(value, windows) + "" == Escaped(value, windows) && value + "" == value;
  }

  /** A command in the installed form, once it is known where the quotation closes. */
  lemma PartsParsed(command: string, windows: bool, exe: string -> bool, text: string, after: string)
    requires command == QuoteOf(windows) + text + QuoteOf(windows) + after
    requires CloseIn(text + (QuoteOf(windows) + after), windows) == |text|
    requires MIDDLE <= after && HasSuffix(command, ENDING)
    ensures HookBinary(command, exe) == (Unescaped(text, windows), exe(Unescaped(text, windows)))
  {
    hide CloseIn, Unescaped, HasSuffix, HookBinary;
    TextParts(QuoteOf(windows), text, after);
    FirstStyle(command, windows, exe);
  }

  lemma SuffixOf(head: string, ending: string)
    ensures HasSuffix(head + ending, ending)
  {
    assert (head + ending)[|head|..] == ending;
  }

  lemma TextParts(quote: string, text: string, after: string)
    requires |quote| == 1
    ensures var command := quote + text + quote + after;
            && command[1..] == text + (quote + after) && command[1..|text| + 1] == text
            && command[|text| + 2..] == after
  {
  }

  /** Quotes of the other style do not open the command. */
  lemma FirstStyle(command: string, windows: bool, exe: string -> bool)
    requires QuoteOf(windows) <= command
    ensures ParsedAs(command, windows, exe).Some? ==> HookBinary(command, exe) == ParsedAs(command, windows, exe).value
  {
    assert command[0] == QuoteOf(windows)[0];
  }

  /** A generated command reads back as the binary it was made for. */
  lemma ReadsBack(binary: string, config: string, windows: bool, exe: string -> bool)
    requires windows ==> !EndsInBackslash(binary)
    ensures HookBinary(CommandFor(binary, config, windows), exe) == (binary, exe(binary))
  {
    hide CloseIn, Unescaped, Escaped, Quoted, HasSuffix, CommandFor;
    var after := MIDDLE + Quoted(config, windows) + ENDING;
    CommandTail(binary, config, windows);
    ClosesAtQuote(after, windows);
    ClosesAfter(binary, QuoteOf(windows) + after, windows);
    CommandParts(binary, config, windows);
    UnescapeEscaped(binary, "", windows);
    assert Escaped(binary, windows) + "" == Escaped(binary, windows);
    assert Unescaped("", windows) == "" by { UnescapesNothing(windows); }
    assert binary + "" == binary;
    CommandEnds(binary, config, windows);
    StyleOf(binary, config, windows, exe);
  }

  lemma UnescapesNothing(windows: bool)
    ensures Unescaped("", windows) == ""
  {
  }

  lemma ClosesAtQuote(after: string, windows: bool)
    requires MIDDLE <= after
    ensures CloseIn(QuoteOf(windows) + after, windows) == 0
  {
    var s := QuoteOf(windows) + after;
    assert s[0] == QuoteOf(windows)[0] && s[1] == ' ';
  }

  /** And on Windows a binary ending in a backslash never reads back. */
  lemma LosesBackslash(binary: string, config: string, exe: string -> bool)
    requires EndsInBackslash(binary)
    ensures HookBinary(CommandFor(binary, config, true), exe).0 != binary
  {
    hide CloseIn, Unescaped, Escaped, Quoted, HasSuffix, CommandFor;
    var command := CommandFor(binary, config, true);
    StyleOf(binary, config, true, exe);
    if ParsedAs(command, true, exe).Some? {
      var u := binary[..|binary| - 1];
      var after := MIDDLE + Quoted(config, true) + ENDING;
      var s := Escaped(u, true) + ("\\\"" + after);
      BackslashTail(binary, config);
      SkippedClose(u, after);
      var k := CloseIn(s, true);
      assert command[1..k + 1] == s[..k] by { PartOfTail(command, s, k); }
      ReadsQuoteThere(u, after, k);
    }
  }

  lemma PartOfTail(command: string, s: string, k: nat)
    requires |command| > 0 && command[1..] == s && k <= |s|
    ensures command[1..k + 1] == s[..k]
  {
  }

  lemma BackslashTail(binary: string, config: string)
    requires EndsInBackslash(binary)
    ensures CommandFor(binary, config, true)[1..] ==
            Escaped(binary[..|binary| - 1], true) + ("\\\"" + (MIDDLE + Quoted(config, true) + ENDING))
  {
    hide Escaped, Quoted, CommandFor;
    var u := binary[..|binary| - 1];
    CommandTail(binary, config, true);
    EscapedSnoc(u);
    assert binary == u + "\\";
  }

  /** The closing quote is taken for an escaped one and skipped. */
  lemma SkippedClose(u: string, after: string)
    ensures var k := CloseIn(Escaped(u, true) + ("\\\"" + after), true);
            k < 0 || k >= |Escaped(u, true)| + 2
  {
    hide CloseIn, Escaped;
    ReadsEscape(after, true);
    assert ("\\\"" + after)[0] == '\\';
    ClosesAfter(u, "\\\"" + after, true);
  }

  /** So what is read has a quote where the backslash was. */
  lemma ReadsQuoteThere(u: string, after: string, k: nat)
    requires |Escaped(u, true)| + 2 <= k <= |Escaped(u, true)| + 2 + |after|
    ensures var r := Unescaped((Escaped(u, true) + ("\\\"" + after))[..k], true);
            |r| > |u| && r[|u|] == '"'
  {
    hide Unescaped, Escaped;
    var n := |Escaped(u, true)|;
    var inner := "\\\"" + after[..k - n - 2];
    assert (Escaped(u, true) + ("\\\"" + after))[..k] == Escaped(u, true) + inner;
    assert inner[0] == '\\';
    UnescapeEscaped(u, inner, true);
    ReadsEscape(after[..k - n - 2], true);
  }

  lemma {:induction false} EscapedSnoc(u: string)
    ensures Escaped(u + "\\", true) == Escaped(u, true) + "\\"
  {
    if u == "" {
      assert u + "\\" == "\\";
      EscapedCons("\\", true);
      assert "\\"[1..] == "";
    } else {
      EscapedCons(u, true);
      EscapedCons(u + "\\", true);
      assert (u + "\\")[1..] == u[1..] + "\\";
      EscapedSnoc(u[1..]);
    }
  }

  /** A generated command reads back as its binary exactly when the binary does
      not end in a backslash in the Windows form. */
  lemma RoundTrip(binary: string, config: string, windows: bool, exe: string -> bool)
    ensures HookBinary(CommandFor(binary, config, windows), exe).0 == binary <==> !(windows && EndsInBackslash(binary))
  {
    if windows && EndsInBackslash(binary) {
      LosesBackslash(binary, config, exe);
    } else {
      ReadsBack(binary, config, windows, exe);
    }
  }

  // ----- installing and removing -----

  /** An entry of the sessionStart list; `rest` is whatever else it holds. */
  datatype Hook = Hook(command: Option<string>, rest: string) | NotAnObject(text: string)

  predicate Ours(h: Hook, exe: string -> bool) {
    h.Hook? && HookBinary(if h.command.Some? then h.command.value else "", exe).1
  }

  function Others(hooks: seq<Hook>, exe: string -> bool): seq<Hook> {
    if hooks == [] then []
    else Others(hooks[..|hooks| - 1], exe) + if Ours(hooks[|hooks| - 1], exe) then [] else [hooks[|hooks| - 1]]
  }

  function NewHook(binary: string, config: string, windows: bool): Hook {
    Hook(Some(CommandFor(binary, config, windows)), "timeout 8")
  }

  /** The sessionStart list after installing or removing, or None when a
      differing hook of ours stands in the way of an install without update. */
  function Wired(hooks: seq<Hook>, wanted: Hook, install: bool, update: bool, exe: string -> bool): Option<seq<Hook>> {
    if install && !update && exists i :: 0 <= i < |hooks| && Ours(hooks[i], exe) && hooks[i] != wanted then None
    else Some(Others(hooks, exe) + if install then [wanted] else [])
  }

  class SessionStart {
    var hooks: seq<Hook>

    method Wire(wanted: Hook, install: bool, update: bool, exe: string -> bool) returns (ok: bool)
      modifies this
      ensures var spec := Wired(old(hooks), wanted, install, update, exe);
              ok == spec.Some? && hooks == if ok then spec.value else old(hooks)
    {
      hide HookBinary;
      var kept: seq<Hook> := [];
      for i := 0 to |hooks|
        invariant hooks == old(hooks) && kept == Others(hooks[..i], exe)
        invariant install && !update ==> forall j | 0 <= j < i && Ours(hooks[j], exe) :: hooks[j] == wanted
      {
        assert hooks[..i + 1] == hooks[..i] + [hooks[i]];
        OthersSnoc(hooks[..i], hooks[i], exe);
        var ours := false;
        if hooks[i].Hook? {
          var command := if hooks[i].command.Some? then hooks[i].command.value else "";
          var binary, found := FindHookBinary(command, exe);
          ours := found;
        }
        assert ours == Ours(hooks[i], exe);
        if ours {
          if install && !update && hooks[i] != wanted {
            return false;
          }
          continue;
        }
        kept := kept + [hooks[i]];
      }
      assert hooks[..|hooks|] == hooks;
      if install {
        kept := kept + [wanted];
      }
      hooks := kept;
      ok := true;
    }
  }

  lemma {:induction false} OthersTwice(hooks: seq<Hook>, exe: string -> bool)
    ensures Others(Others(hooks, exe), exe) == Others(hooks, exe)
    ensures forall h | h in Others(hooks, exe) :: !Ours(h, exe)
    decreases |hooks|
  {
    if hooks != [] {
      OthersTwice(hooks[..|hooks| - 1], exe);
      var init := Others(hooks[..|hooks| - 1], exe);
      var last := hooks[|hooks| - 1];
      if Ours(last, exe) {
        assert Others(hooks, exe) == init;
      } else {
        assert Others(hooks, exe) == init + [last];
        assert (init + [last])[..|init|] == init;
      }
    }
  }

  /** Installing for a Grasshopper binary and then removing leaves exactly the
      unrelated hooks, in their order. */
  lemma RemoveUndoesInstall(hooks: seq<Hook>, binary: string, config: string, windows: bool, update: bool,
                            exe: string -> bool)
    requires exe(binary) && (windows ==> !EndsInBackslash(binary))
    ensures var ours := NewHook(binary, config, windows);
            var installed := Wired(hooks, ours, true, update, exe);
            installed.Some? ==>
              && Wired(installed.value, ours, false, update, exe) == Some(Others(hooks, exe))
              && ours in installed.value && Others(installed.value, exe) == Others(hooks, exe)
  {
    hide HookBinary, CommandFor;
    var ours := NewHook(binary, config, windows);
    ReadsBack(binary, config, windows, exe);
    OthersTwice(hooks, exe);
    OthersSnoc(Others(hooks, exe), ours, exe);
    assert Others(hooks, exe) + [] == Others(hooks, exe);
  }

  lemma OthersSnoc(hooks: seq<Hook>, h: Hook, exe: string -> bool)
    ensures Others(hooks + [h], exe) == Others(hooks, exe) + if Ours(h, exe) then [] else [h]
  {
    assert (hooks + [h])[..|hooks|] == hooks;
  }

  /** An install without update stops, leaving the list as it is, exactly at a
      hook of ours that was edited; otherwise a wiring drops every hook of ours,
      keeps the others in their order, and an install adds the wanted one. */
  lemma WiringAnswers(hooks: seq<Hook>, wanted: Hook, install: bool, update: bool, exe: string -> bool)
    ensures var wired := Wired(hooks, wanted, install, update, exe);
            && (wired.None? <==> install && !update && exists h :: h in hooks && Ours(h, exe) && h != wanted)
            && (wired.Some? ==>
                  && (forall h :: h in wired.value <==> (h in hooks && !Ours(h, exe)) || (install && h == wanted))
                  && (Ours(wanted, exe) || !install ==> Others(wired.value, exe) == Others(hooks, exe))
                  && |wired.value| == |Others(hooks, exe)| + if install then 1 else 0)
  {
    OthersTwice(hooks, exe);
    OthersMembers(hooks, exe);
    if install {
      OthersSnoc(Others(hooks, exe), wanted, exe);
    }
    assert Others(hooks, exe) + [] == Others(hooks, exe);
  }

  lemma {:induction false} OthersMembers(hooks: seq<Hook>, exe: string -> bool)
    ensures forall h :: h in Others(hooks, exe) <==> h in hooks && !Ours(h, exe)
    decreases |hooks|
  {
    hide Ours;
    if hooks != [] {
      OthersMembers(hooks[..|hooks| - 1], exe);
      assert hooks == hooks[..|hooks| - 1] + [hooks[|hooks| - 1]];
    }
  }

  /** A second identical install changes nothing, with or without update. */
  lemma InstallTwice(hooks: seq<Hook>, binary: string, config: string, windows: bool, update: bool, again: bool,
                     exe: string -> bool)
    requires exe(binary) && (windows ==> !EndsInBackslash(binary))
    ensures var ours := NewHook(binary, config, windows);
            var installed := Wired(hooks, ours, true, update, exe);
            installed.Some? ==> Wired(installed.value, ours, true, again, exe) == installed
  {
    var ours := NewHook(binary, config, windows);
    hide NewHook, Others, Ours;
    RemoveUndoesInstall(hooks, binary, config, windows, update, exe);
    OthersTwice(hooks, exe);
    var list := Others(hooks, exe) + [ours];
    forall i | 0 <= i < |list| ensures list[i] == ours || !Ours(list[i], exe) {
      assert list[i] == ours || list[i] in Others(hooks, exe);
    }
  }
}
