/**
 base/command_line.cc, Windows: GetArgumentsStringInternal, which quotes only the value of a
 switch, against the rules by which the line is split again.
 */
module ArgumentsString {
  import opened Sequences
  import opened ArgvQuoting

  const TERMINATOR := "--"

  /** GetSwitchPrefixLength: "--", "-" and "/", in that order. */
  function PrefixLength(s: string): (n: nat)
    ensures n <= |s|
  {
    if "--" <= s then 2 else if "-" <= s || "/" <= s then 1 else 0
  }

  predicate IsSwitch(arg: string) {
    0 < PrefixLength(arg) < |arg|
  }

  /** The part before the first equals sign. */
  function NameOf(arg: string): (name: string)
    ensures |name| <= |arg| && name == arg[..|name|]
    ensures |name| < |arg| ==> arg[|name|] == '='
  {
    if arg == "" || arg[0] == '=' then "" else [arg[0]] + NameOf(arg[1..])
  }

  function ValueOf(arg: string): string {
    var n := |NameOf(arg)|;
    if n == |arg| then "" else arg[n + 1..]
  }

  /** What one argument becomes. */
  function Shown(arg: string, switching: bool, placeholders: bool): string {
    if switching && IsSwitch(arg) then
      NameOf(arg) + (if ValueOf(arg) == "" then "" else "=" + Quoted(ValueOf(arg), placeholders))
    else Quoted(arg, placeholders)
  }

  function ArgumentsLine(args: seq<string>, switching: bool, placeholders: bool): string {
    if args == [] then ""
    else
      var on := switching && args[0] != TERMINATOR;
      Shown(args[0], on, placeholders) + if |args| == 1 then "" else [SPACE] + ArgumentsLine(args[1..], on, placeholders)
  }

  /** GetArgumentsStringInternal, on argv without the program. */
  method GetArgumentsString(args: seq<string>, placeholders: bool) returns (params: string)
    ensures params == ArgumentsLine(args, true, placeholders)
  {
    params := "";
    var parseSwitches := true;
    assert args[0..] == args;
    assert params + ArgumentsLine(args, true, placeholders) == ArgumentsLine(args, true, placeholders);
    for i := 0 to |args|
      invariant params + LineFrom(args, i, parseSwitches, placeholders) == ArgumentsLine(args, true, placeholders)
    {
      var arg := args[i];
      ghost var was := params;
      NextArgument(args, i, parseSwitches, placeholders);
      parseSwitches := parseSwitches && arg != TERMINATOR;
      hide LineFrom;
      ghost var space := if i > 0 then [SPACE] else "";
      if i > 0 {
        params := params + [SPACE];
      }
      ghost var after := LineFrom(args, i + 1, parseSwitches, placeholders);
      assert params == was + space;
      if parseSwitches && IsSwitch(arg) {
        var shown := NameOf(arg);
        if ValueOf(arg) != "" {
          var value := Quote(ValueOf(arg), placeholders);
          shown := shown + ("=" + value);
        } else {
          assert shown + "" == shown;
        }
        Regrouped(was, space, shown, after);
        params := params + shown;
      } else {
        var shown := Quote(arg, placeholders);
        Regrouped(was, space, shown, after);
        params := params + shown;
      }
    }
    assert params + "" == params;
  }

  lemma Regrouped(a: string, b: string, c: string, d: string)
    ensures a + (b + (c + d)) == a + b + c + d
  {
  }

  /** What is still to be appended before argument i. */
  function LineFrom(args: seq<string>, i: nat, switching: bool, placeholders: bool): string
    requires i <= |args|
  {
    if i == |args| then "" else (if i > 0 then [SPACE] else "") + ArgumentsLine(args[i..], switching, placeholders)
  }

  lemma NextArgument(args: seq<string>, i: nat, switching: bool, placeholders: bool)
    requires i < |args|
    ensures var on := switching && args[i] != TERMINATOR;
      LineFrom(args, i, switching, placeholders)
        == (if i > 0 then [SPACE] else "") + (Shown(args[i], on, placeholders) + LineFrom(args, i + 1, on, placeholders))
  {
    assert args[i..][1..] == args[i + 1..];
  }

  // ----- what survives -----

  predicate Literal(name: string) {
    QUOTE !in name && SPACE !in name && TAB !in name
  }

  /** A switch survives when its name has neither blanks nor quotes, and its value, if it shows an equals sign, can be quoted. */
  predicate Survives(arg: string, switching: bool, placeholders: bool) {
    if switching && IsSwitch(arg) then
      Literal(NameOf(arg)) && (NameOf(arg) == arg || Recoverable(ValueOf(arg), placeholders))
    else Recoverable(arg, placeholders)
  }

  lemma NameAndValue(arg: string)
    requires NameOf(arg) != arg
    ensures arg == NameOf(arg) + "=" + ValueOf(arg)
  {
  }

  /** Text without blanks or quotes is read as it stands, backslashes included. */
  lemma {:induction false} ReadLiteral(name: string, tail: string)
    requires Literal(name) && (tail == "" || (tail[0] != BACKSLASH && tail[0] != QUOTE))
    ensures ReadArg(name + tail, false) == (name + ReadArg(tail, false).0, ReadArg(tail, false).1)
    decreases |name|
  {
    if name == "" {
      assert name + tail == tail && name + ReadArg(tail, false).0 == ReadArg(tail, false).0;
    } else {
      hide ReadArg, Repeat;
      var n := if Run(name) > 0 then Run(name) else 1;
      var head, rest := name[..n], name[n..];
      assert name == head + rest && name + tail == head + (rest + tail);
      ReadLiteral(rest, tail);
      LiteralStarts(rest, tail);
      if Run(name) > 0 {
        RunIsRepeat(name);
        ReadRun(n, rest + tail, false);
      } else {
        assert head == [name[0]] && name[0] in name;
        ReadOne(name[0], rest + tail);
      }
      hide *;
      Regroup(head, rest, ReadArg(tail, false).0);
    }
  }

  lemma RunIsRepeat(name: string)
    ensures name[..Run(name)] == Repeat(BACKSLASH, Run(name))
  {
  }

  lemma LiteralStarts(rest: string, tail: string)
    requires Literal(rest) && (tail == "" || (tail[0] != BACKSLASH && tail[0] != QUOTE))
    ensures rest == "" || rest[0] != BACKSLASH ==> rest + tail == "" || ((rest + tail)[0] != BACKSLASH && (rest + tail)[0] != QUOTE)
  {
    assert rest != "" ==> rest[0] in rest;
  }

  lemma ReadOne(c: char, more: string)
    requires c != BACKSLASH && c != QUOTE && !Blank(c)
    ensures ReadArg([c] + more, false) == ([c] + ReadArg(more, false).0, ReadArg(more, false).1)
  {
    assert ([c] + more)[1..] == more;
  }

  lemma ReadQuotedValue(value: string, placeholders: bool, rest: string)
    requires Recoverable(value, placeholders) && Ends(rest)
    ensures ReadArg(Quoted(value, placeholders) + rest, false) == (value, rest)
  {
    if NeedsQuotes(value, placeholders) {
      ReadInQuotes(value, rest);
    } else {
      ReadPlain(value, placeholders, rest);
    }
  }

  lemma ReadSwitch(name: string, value: string, placeholders: bool, rest: string)
    requires Literal(name) && Recoverable(value, placeholders) && Ends(rest)
    ensures ReadArg(name + ("=" + Quoted(value, placeholders)) + rest, false) == (name + "=" + value, rest)
  {
    var shown := Quoted(value, placeholders);
    ReadQuotedValue(value, placeholders, rest);
    hide *;
    ReadOne('=', shown + rest);
    var tail := "=" + (shown + rest);
    assert name + ("=" + shown) + rest == name + tail;
    ReadLiteral(name, tail);
    Regroup(name, "=", value);
  }

  lemma ReadShown(arg: string, switching: bool, placeholders: bool, rest: string)
    requires Survives(arg, switching, placeholders) && Ends(rest)
    ensures ReadArg(Shown(arg, switching, placeholders) + rest, false) == (arg, rest)
  {
    hide ReadArg, Quoted, Recoverable, Literal, Ends;
    if switching && IsSwitch(arg) {
      var name, value := NameOf(arg), ValueOf(arg);
      if name == arg {
        assert Shown(arg, switching, placeholders) == name + "" == name;
        ReadToEnd(name, rest);
      } else {
        NameAndValue(arg);
        NotEmpty(value, placeholders);
        ReadSwitch(name, value, placeholders, rest);
      }
    } else {
      ReadQuotedValue(arg, placeholders, rest);
    }
  }

  lemma ReadToEnd(name: string, rest: string)
    requires Literal(name) && Ends(rest)
    ensures ReadArg(name + rest, false) == (name, rest)
  {
    EndsHere(rest);
    hide ReadArg;
    ReadLiteral(name, rest);
    assert name + "" == name;
  }

  lemma NotEmpty(value: string, placeholders: bool)
    requires Recoverable(value, placeholders)
    ensures value != ""
  {
  }

  lemma EndsHere(rest: string)
    requires Ends(rest)
    ensures ReadArg(rest, false) == ("", rest)
  {
  }

  predicate AllSurvive(args: seq<string>, switching: bool, placeholders: bool) {
    args == [] ||
    var on := switching && args[0] != TERMINATOR;
    Survives(args[0], on, placeholders) && AllSurvive(args[1..], on, placeholders)
  }

  lemma ShownStarts(arg: string, switching: bool, placeholders: bool)
    requires Survives(arg, switching, placeholders)
    ensures var shown := Shown(arg, switching, placeholders); shown != "" && !Blank(shown[0])
  {
    if switching && IsSwitch(arg) {
      var name := NameOf(arg);
      assert name != "" ==> name[0] in name;
    } else if !NeedsQuotes(arg, placeholders) {
      TailNeedsNoQuotes(arg, placeholders);
      assert arg[0] in arg;
    }
  }

  lemma SplitAfterSpace(line: string)
    ensures SplitArgs([SPACE] + line) == SplitArgs(line)
  {
    assert ([SPACE] + line)[1..] == line;
  }

  /** Splitting the arguments string gives back the arguments, switches and terminator included. */
  lemma {:induction false} ArgumentsComeBack(args: seq<string>, switching: bool, placeholders: bool)
    requires AllSurvive(args, switching, placeholders)
    ensures SplitArgs(ArgumentsLine(args, switching, placeholders)) == args
  {
    if args != [] {
      var on := switching && args[0] != TERMINATOR;
      var shown := Shown(args[0], on, placeholders);
      var rest := if |args| == 1 then "" else [SPACE] + ArgumentsLine(args[1..], on, placeholders);
      ArgumentsComeBack(args[1..], on, placeholders);
      hide ReadArg, SplitArgs, Shown, Survives;
      if |args| == 1 {
        assert rest == "" && ArgumentsLine(args[1..], on, placeholders) == "";
      } else {
        SplitAfterSpace(ArgumentsLine(args[1..], on, placeholders));
      }
      assert ArgumentsLine(args, switching, placeholders) == shown + rest;
      hide ArgumentsLine, AllSurvive;
      ReadShown(args[0], on, placeholders, rest);
      ShownStarts(args[0], on, placeholders);
      SplitFirst(shown + rest, args[0], rest);
      assert args == [args[0]] + args[1..];
    }
  }

  // ----- what does not survive -----

  /** One character or one run of backslashes, with a quote behind it if there is one: what it stands for, and its length. */
  function Head(s: string): (r: (string, nat))
    requires s != ""
    ensures 0 < r.1 <= |s| && |r.0| <= r.1
    ensures QUOTE in s[..r.1] ==> |r.0| < r.1
  {
    var n := Run(s);
    if n < |s| && s[n] == QUOTE then
      (Repeat(BACKSLASH, n / 2) + (if n % 2 == 0 then "" else [QUOTE]), n + 1)
    else if n > 0 then (Repeat(BACKSLASH, n), n)
    else ([s[0]], 1)
  }

  /** Reading begins with the same piece. */
  lemma ReadHead(s: string, quoting: bool) returns (next: bool)
    requires s != "" && (quoting || !Blank(s[0]))
    ensures ReadArg(s, quoting) == (Head(s).0 + ReadArg(s[Head(s).1..], next).0, ReadArg(s[Head(s).1..], next).1)
  {
    hide Repeat;
    var n := Run(s);
    next := if n < |s| && s[n] == QUOTE && n % 2 == 0 then !quoting else quoting;
    if n == 0 && s[0] == QUOTE {
      assert Repeat(BACKSLASH, 0) + "" == "";
      assert "" + ReadArg(s[1..], next).0 == ReadArg(s[1..], next).0;
    } else if n < |s| && s[n] == QUOTE && n % 2 == 0 {
      assert Repeat(BACKSLASH, n / 2) + "" == Repeat(BACKSLASH, n / 2);
    }
  }

  lemma HeadOfConcat(s: string, tail: string)
    requires s != "" && tail != "" && tail[0] != BACKSLASH && tail[0] != QUOTE
    ensures Head(s + tail) == Head(s)
  {
    RunAfter(s + tail, Run(s));
  }

  predicate Marked(token: string) {
    exists i :: 0 <= i < |token| && token[i] != TAB
  }

  /** Unquoted text is nothing but tabs, or begins with a token that has none. */
  lemma {:induction false} UnquotedFirst(text: string, placeholders: bool, rest: string)
    requires !NeedsQuotes(text, placeholders) && Ends(rest)
    ensures var tokens := SplitArgs(text + rest);
      if Marked(text) then tokens != [] && tokens[0] != "" && TAB !in tokens[0] else tokens == SplitArgs(rest)
    decreases |text|
  {
    if text == "" {
      assert text + rest == rest;
    } else {
      TailNeedsNoQuotes(text, placeholders);
      assert (text + rest)[0] == text[0];
      if text[0] == TAB {
        assert (text + rest)[1..] == text[1..] + rest;
        UnquotedFirst(text[1..], placeholders, rest);
        assert forall i :: 0 < i < |text| ==> text[i] == text[1..][i - 1];
      } else {
        var token, left := ReadToTab(text, placeholders, rest);
        SplitFirst(text + rest, token, left + rest);
      }
    }
  }

  lemma UnquotedIsPlain(text: string, placeholders: bool)
    requires !NeedsQuotes(text, placeholders)
    ensures QUOTE !in text && SPACE !in text && BACKSLASH !in text
  {
    assert forall i :: 0 <= i < |text| ==> !Quotable(text[i], placeholders);
  }

  /** The first argument read from one's part of the line has a character that is not a tab, unless the part has none. */
  lemma {:induction false} FirstIsMarked(args: seq<string>, switching: bool, placeholders: bool)
    ensures var tokens := SplitArgs(ArgumentsLine(args, switching, placeholders)); tokens == [] || Marked(tokens[0])
  {
    if args != [] {
      var on := switching && args[0] != TERMINATOR;
      var shown := Shown(args[0], on, placeholders);
      var rest := if |args| == 1 then "" else [SPACE] + ArgumentsLine(args[1..], on, placeholders);
      FirstIsMarked(args[1..], on, placeholders);
      if |args| > 1 {
        SplitAfterSpace(ArgumentsLine(args[1..], on, placeholders));
      }
      ShownIsMarked(args[0], on, placeholders, rest);
    }
  }

  lemma ShownIsMarked(arg: string, switching: bool, placeholders: bool, rest: string)
    requires Ends(rest) && (SplitArgs(rest) == [] || Marked(SplitArgs(rest)[0]))
    ensures var tokens := SplitArgs(Shown(arg, switching, placeholders) + rest); tokens == [] || Marked(tokens[0])
  {
    var line := Shown(arg, switching, placeholders) + rest;
    if switching && IsSwitch(arg) {
      assert line[0] == arg[0] && (arg[0] == '-' || arg[0] == '/');
      ReadOne(line[0], line[1..]);
      assert line == [line[0]] + line[1..];
      assert ReadArg(line, false).0[0] != TAB;
    } else if NeedsQuotes(arg, placeholders) {
      ReadInQuotes(arg, rest);
      assert line[0] == QUOTE;
      var i :| 0 <= i < |arg| && Quotable(arg[i], placeholders);
      assert Marked(arg);
    } else {
      UnquotedFirst(arg, placeholders, rest);
      if Marked(arg) {
        var token := SplitArgs(line)[0];
        assert token[0] in token;
      }
    }
  }

  /** The reading ends at m, or shows there what follows. */
  predicate Shows(token: string, m: nat, tail: string) {
    |token| == m || (|token| > m && tail != "" && token[m] == tail[0])
  }

  lemma ShowsLater(piece: string, token: string, m: nat, tail: string)
    requires Shows(token, m, tail)
    ensures Shows(piece + token, |piece| + m, tail)
  {
  }

  lemma HeadThenRest(text: string)
    requires text != "" && forall i :: 0 <= i < |text| ==> !Blank(text[i])
    ensures var (piece, n) := Head(text);
      && (forall i :: 0 <= i < |text[n..]| ==> !Blank(text[n..][i]))
      && (QUOTE in text ==> |piece| < n || QUOTE in text[n..])
  {
    hide Head, Blank;
    var n := Head(text).1;
    assert text == text[..n] + text[n..];
  }

  lemma HeadOfLine(text: string, tail: string)
    requires text != "" && (tail != "" ==> Blank(tail[0]) || tail[0] == '=')
    ensures Head(text + tail) == Head(text) && (text + tail)[Head(text).1..] == text[Head(text).1..] + tail
  {
    if tail == "" {
      assert text + tail == text;
    } else {
      HeadOfConcat(text, tail);
    }
    hide Head;
    var n := Head(text).1;
    assert (text + tail)[n..] == text[n..] + tail;
  }

  /**
   After a text without blanks, followed by a blank, an equals sign or nothing, the reading
   has ended or shows what follows, and a quote in the text has cost it a character.
   */
  lemma {:induction false} ReadPast(text: string, tail: string, quoting: bool) returns (m: nat)
    requires forall i :: 0 <= i < |text| ==> !Blank(text[i])
    requires tail != "" ==> Blank(tail[0]) || tail[0] == '='
    ensures m <= |text| && (QUOTE in text ==> m < |text|)
    ensures Shows(ReadArg(text + tail, quoting).0, m, tail)
    decreases |text|
  {
    if text == "" {
      m := 0;
      assert text + tail == tail;
    } else {
      HeadOfLine(text, tail);
      HeadThenRest(text);
      assert (text + tail)[0] == text[0];
      hide Head, ReadArg, Blank, Shows;
      var next := ReadHead(text + tail, quoting);
      var piece, n := Head(text).0, Head(text).1;
      var later := ReadPast(text[n..], tail, next);
      ShowsLater(piece, ReadArg(text[n..] + tail, next).0, later, tail);
      m := |piece| + later;
    }
  }

  lemma {:induction false} NoEquals(arg: string)
    ensures '=' !in NameOf(arg)
  {
    if arg != "" && arg[0] != '=' {
      NoEquals(arg[1..]);
    }
  }

  lemma ToBlank(name: string) returns (b: nat)
    ensures b <= |name| && (b < |name| ==> Blank(name[b])) && forall i :: 0 <= i < b ==> !Blank(name[i])
  {
    b := 0;
    while b < |name| && !Blank(name[b])
      invariant b <= |name| && forall i :: 0 <= i < b ==> !Blank(name[i])
    {
      b := b + 1;
    }
  }

  lemma ShownSwitch(arg: string, placeholders: bool, rest: string)
    requires IsSwitch(arg) && Ends(rest)
    ensures var line, n := Shown(arg, true, placeholders) + rest, |NameOf(arg)|;
      n <= |line| && line[..n] == NameOf(arg) && (n < |line| ==> line[n] == '=' || Blank(line[n]))
  {
    var name := NameOf(arg);
    if ValueOf(arg) == "" {
      assert Shown(arg, true, placeholders) == name + "" == name;
    } else {
      var value := "=" + Quoted(ValueOf(arg), placeholders);
      assert Shown(arg, true, placeholders) == name + value && value[0] == '=';
    }
  }

  lemma QuoteLost(arg: string, text: string, tail: string)
    requires text <= arg && QUOTE in text && forall i :: 0 <= i < |text| ==> !Blank(text[i]) && text[i] != '='
    requires tail != "" ==> Blank(tail[0]) || tail[0] == '='
    ensures ReadArg(text + tail, false).0 != arg
  {
    hide ReadArg;
    var m := ReadPast(text, tail, false);
    assert arg[m] == text[m];
  }

  /** The name of a switch up to its first blank, and what follows it in the line. */
  lemma NameInLine(arg: string, placeholders: bool, rest: string) returns (text: string, tail: string)
    requires IsSwitch(arg) && !Literal(NameOf(arg)) && Ends(rest)
    ensures Shown(arg, true, placeholders) + rest == text + tail && text <= arg
    ensures forall i :: 0 <= i < |text| ==> !Blank(text[i]) && text[i] != '='
    ensures tail != "" ==> Blank(tail[0]) || tail[0] == '='
    ensures QUOTE !in text ==> Literal(text) && Ends(tail) && |text| < |arg|
  {
    var name, line := NameOf(arg), Shown(arg, true, placeholders) + rest;
    var b := ToBlank(name);
    ShownSwitch(arg, placeholders, rest);
    NoEquals(arg);
    assert arg[..|name|] == name;
    hide *;
    text, tail := name[..b], line[b..];
    CutAt(name, line, arg, b);
    UpToBlank(name, b);
    if b < |name| {
      EndsAt(tail);
    }
  }

  lemma CutAt(name: string, line: string, arg: string, b: nat)
    requires b <= |name| <= |line| && line[..|name|] == name && |name| <= |arg| && arg[..|name|] == name
    ensures line == name[..b] + line[b..] && name[..b] <= arg
    ensures if b < |name| then line[b..] != "" && line[b..][0] == name[b] && |name[..b]| < |arg|
            else line[b..] == line[|name|..]
    ensures line[|name|..] != "" ==> line[|name|..][0] == line[|name|]
  {
  }

  lemma UpToBlank(name: string, b: nat)
    requires b <= |name| && '=' !in name && (b < |name| ==> Blank(name[b])) && forall i :: 0 <= i < b ==> !Blank(name[i])
    ensures forall i :: 0 <= i < |name[..b]| ==> !Blank(name[..b][i]) && name[..b][i] != '='
    ensures QUOTE !in name[..b] ==> Literal(name[..b]) && (b == |name| ==> Literal(name))
  {
    assert forall i :: 0 <= i < b ==> name[i] in name;
    if QUOTE !in name[..b] {
      CleanText(name[..b]);
      assert b == |name| ==> name[..b] == name;
    }
    hide Literal;
  }

  /** A switch with a blank or a quote in its name is not read back, whatever follows it. */
  lemma NameLost(arg: string, placeholders: bool, rest: string)
    requires IsSwitch(arg) && !Literal(NameOf(arg)) && Ends(rest)
    ensures ReadArg(Shown(arg, true, placeholders) + rest, false).0 != arg
  {
    var text, tail := NameInLine(arg, placeholders, rest);
    hide *;
    if QUOTE in text {
      QuoteLost(arg, text, tail);
    } else {
      ReadToEnd(text, tail);
    }
  }

  lemma CleanText(text: string)
    requires QUOTE !in text && forall i :: 0 <= i < |text| ==> !Blank(text[i])
    ensures Literal(text)
  {
  }

  lemma EndsAt(tail: string)
    requires tail != "" && Blank(tail[0])
    ensures Ends(tail)
  {
  }

  /** An argument that does not survive is not the first to be read back. */
  lemma Lost(arg: string, switching: bool, placeholders: bool, rest: string)
    requires !Survives(arg, switching, placeholders) && Ends(rest)
    requires SplitArgs(rest) == [] || Marked(SplitArgs(rest)[0])
    ensures var tokens := SplitArgs(Shown(arg, switching, placeholders) + rest); tokens == [] || tokens[0] != arg
  {
    var line := Shown(arg, switching, placeholders) + rest;
    if switching && IsSwitch(arg) {
      assert line[0] == arg[0] && !Blank(arg[0]);
      if !Literal(NameOf(arg)) {
        NameLost(arg, placeholders, rest);
      } else {
        ValueLost(arg, placeholders, rest);
      }
    } else {
      UnquotedFirst(arg, placeholders, rest);
    }
  }

  lemma ValueLost(arg: string, placeholders: bool, rest: string)
    requires IsSwitch(arg) && Ends(rest) && Literal(NameOf(arg))
    requires NameOf(arg) != arg && !Recoverable(ValueOf(arg), placeholders)
    ensures ReadArg(Shown(arg, true, placeholders) + rest, false).0 != arg
  {
    var name, value := NameOf(arg), ValueOf(arg);
    NameAndValue(arg);
    if value == "" {
      assert Shown(arg, true, placeholders) == name + "" == name;
      hide *;
      ReadToEnd(name, rest);
    } else {
      UnquotedIsPlain(value, placeholders);
      var p := ToBlank(value);
      assert p < |value| by {
        assert TAB in value && Blank(TAB);
      }
      assert Shown(arg, true, placeholders) == name + ("=" + value);
      var text, tail := name + "=" + value[..p], value[p..] + rest;
      assert value[..p] <= value && QUOTE !in value[..p];
      CleanText(value[..p]);
      EndsAt(tail);
      assert Literal(text);
      hide *;
      CutValue(name, value, p, rest);
      ReadToEnd(text, tail);
    }
  }

  lemma CutValue(name: string, value: string, p: nat, rest: string)
    requires p < |value|
    ensures name + ("=" + value) + rest == name + "=" + value[..p] + (value[p..] + rest)
    ensures name + "=" + value[..p] != name + "=" + value
  {
    assert |name + "=" + value[..p]| != |name + "=" + value|;
  }

  /**
   Splitting the arguments string gives back the arguments, switches and terminator included,
   exactly when each of them survives.
   */
  lemma {:induction false} ArgumentsComeBackIff(args: seq<string>, switching: bool, placeholders: bool)
    ensures SplitArgs(ArgumentsLine(args, switching, placeholders)) == args <==> AllSurvive(args, switching, placeholders)
  {
    if AllSurvive(args, switching, placeholders) {
      ArgumentsComeBack(args, switching, placeholders);
    } else {
      var on := switching && args[0] != TERMINATOR;
      var rest := if |args| == 1 then "" else [SPACE] + ArgumentsLine(args[1..], on, placeholders);
      assert ArgumentsLine(args, switching, placeholders) == Shown(args[0], on, placeholders) + rest;
      SplitAfterSpace(ArgumentsLine(args[1..], on, placeholders));
      assert SplitArgs(rest) == SplitArgs(ArgumentsLine(args[1..], on, placeholders));
      if Survives(args[0], on, placeholders) {
        ReadShown(args[0], on, placeholders, rest);
        ShownStarts(args[0], on, placeholders);
        SplitFirst(Shown(args[0], on, placeholders) + rest, args[0], rest);
        ArgumentsComeBackIff(args[1..], on, placeholders);
        hide SplitArgs, ReadArg, Shown, Survives, ArgumentsLine;
        assert args == [args[0]] + args[1..];
      } else {
        FirstIsMarked(args[1..], on, placeholders);
        Lost(args[0], on, placeholders, rest);
      }
    }
  }

  /** One argument comes back from its part of the line exactly when it survives. */
  lemma SurvivesIff(arg: string, switching: bool, placeholders: bool)
    ensures SplitArgs(Shown(arg, switching, placeholders)) == [arg] <==> Survives(arg, switching, placeholders)
  {
    var shown := Shown(arg, switching, placeholders);
    assert shown + "" == shown && SplitArgs("") == [];
    if Survives(arg, switching, placeholders) {
      ReadShown(arg, switching, placeholders, "");
      ShownStarts(arg, switching, placeholders);
      hide ReadArg, Shown, Survives;
      SplitFirst(shown, arg, "");
    } else {
      Lost(arg, switching, placeholders, "");
    }
  }
}
