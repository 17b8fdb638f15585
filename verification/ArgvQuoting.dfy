/**
 base/command_line.cc, Windows: QuoteForCommandLineToArgvW, against the rules by which
 a Windows program splits its command line into arguments.
 */
module ArgvQuoting {
  import opened Sequences

  const SPACE := ' '
  const TAB := '\t'
  const BACKSLASH := '\\'
  const QUOTE := '\"'

  // ----- quoting -----

  predicate Quotable(c: char, placeholders: bool) {
    c == SPACE || c == BACKSLASH || c == QUOTE || (placeholders && c == '%')
  }

  predicate NeedsQuotes(arg: string, placeholders: bool) {
    exists i :: 0 <= i < |arg| && Quotable(arg[i], placeholders)
  }

  /** The length of the run of backslashes at the start. */
  function Run(s: string): (n: nat)
    ensures n <= |s|
    ensures forall i :: 0 <= i < n ==> s[i] == BACKSLASH
    ensures n < |s| ==> s[n] != BACKSLASH
  {
    if s == "" || s[0] != BACKSLASH then 0 else 1 + Run(s[1..])
  }

  function Repeat(c: char, n: nat): (s: string)
    ensures |s| == n
  {
    seq(n, _ => c)
  }

  /** What goes between the quotes. */
  function Escape(arg: string): string
    decreases |arg|
  {
    if arg == "" then ""
    else if arg[0] == BACKSLASH then
      var n := Run(arg);
      var rest := arg[n..];
      Repeat(BACKSLASH, if rest == "" || rest[0] == QUOTE then 2 * n else n) + Escape(rest)
    else if arg[0] == QUOTE then [BACKSLASH, QUOTE] + Escape(arg[1..])
    else [arg[0]] + Escape(arg[1..])
  }

  function Quoted(arg: string, placeholders: bool): string {
    if NeedsQuotes(arg, placeholders) then [QUOTE] + Escape(arg) + [QUOTE] else arg
  }

  lemma {:induction false} RunAfter(s: string, n: nat)
    requires n <= |s| && (forall i :: 0 <= i < n ==> s[i] == BACKSLASH) && (n < |s| ==> s[n] != BACKSLASH)
    ensures Run(s) == n
  {
    if n > 0 {
      RunAfter(s[1..], n - 1);
    }
  }

  lemma EscapeOfRun(arg: string, n: nat)
    requires 0 < n <= |arg| && (forall i :: 0 <= i < n ==> arg[i] == BACKSLASH) && (n < |arg| ==> arg[n] != BACKSLASH)
    ensures var rest := arg[n..];
      Escape(arg) == Repeat(BACKSLASH, if rest == "" || rest[0] == QUOTE then 2 * n else n) + Escape(rest)
  {
    RunAfter(arg, n);
  }

  /** What becomes of any other character. */
  function Piece(c: char): string {
    if c == QUOTE then [BACKSLASH, QUOTE] else [c]
  }

  lemma EscapeOfChar(arg: string)
    requires arg != "" && arg[0] != BACKSLASH
    ensures Escape(arg) == Piece(arg[0]) + Escape(arg[1..])
  {
  }

  lemma EscapeNothing(arg: string, i: nat, out: string)
    requires i == |arg|
    ensures out + Escape(arg[i..]) == out
  {
  }

  method PushBackslashes(out: string, count: nat) returns (out': string)
    ensures out' == out + Repeat(BACKSLASH, count)
  {
    out' := out;
    for j := 0 to count
      invariant out' == out + Repeat(BACKSLASH, j)
    {
      out' := out' + [BACKSLASH];
    }
  }

  /** The inner loops of the source: find the run of backslashes at i, and write it out once or twice. */
  method EscapeRun(arg: string, i: nat, out: string) returns (out': string, end: nat)
    requires i < |arg| && arg[i] == BACKSLASH
    ensures i < end <= |arg|
    ensures out' + Escape(arg[end..]) == out + Escape(arg[i..])
  {
    end := i + 1;
    while end < |arg| && arg[end] == BACKSLASH
      invariant i < end <= |arg| && forall k :: i <= k < end ==> arg[k] == BACKSLASH
    {
      end := end + 1;
    }
    RunWritten(arg, i, end, out);
    var count := end - i;
    if end == |arg| || arg[end] == QUOTE {
      count := count * 2;
    }
    hide *;
    out' := PushBackslashes(out, count);
  }

  lemma RunWritten(arg: string, i: nat, end: nat, out: string)
    requires i < end <= |arg| && (forall k :: i <= k < end ==> arg[k] == BACKSLASH) && (end < |arg| ==> arg[end] != BACKSLASH)
    ensures var count := if end == |arg| || arg[end] == QUOTE then 2 * (end - i) else end - i;
      out + Repeat(BACKSLASH, count) + Escape(arg[end..]) == out + Escape(arg[i..])
  {
    hide Escape, Repeat;
    EscapeOfRun(arg[i..], end - i);
    assert arg[i..][end - i..] == arg[end..];
    var count := if end == |arg| || arg[end] == QUOTE then 2 * (end - i) else end - i;
    Regroup(out, Repeat(BACKSLASH, count), Escape(arg[end..]));
  }

  /** QuoteForCommandLineToArgvW. */
  method Quote(arg: string, placeholders: bool) returns (out: string)
    ensures out == Quoted(arg, placeholders)
  {
    if !NeedsQuotes(arg, placeholders) {
      return arg;
    }
    hide Escape;
    out := [QUOTE];
    var i := 0;
    assert arg[0..] == arg;
    while i < |arg|
      invariant i <= |arg| && out + Escape(arg[i..]) == [QUOTE] + Escape(arg)
      decreases |arg| - i
    {
      if arg[i] == BACKSLASH {
        out, i := EscapeRun(arg, i, out);
      } else {
        assert arg[i..][1..] == arg[i + 1..];
        EscapeOfChar(arg[i..]);
        Regroup(out, Piece(arg[i]), Escape(arg[i + 1..]));
        out := out + if arg[i] == QUOTE then [BACKSLASH, QUOTE] else [arg[i]];
        i := i + 1;
      }
    }
    EscapeNothing(arg, i, out);
    out := out + [QUOTE];
  }

  // ----- splitting: the rules of "Parsing C++ Command-Line Arguments" -----

  predicate Blank(c: char) {
    c == SPACE || c == TAB
  }

  /**
   Reads one argument, and returns it with what follows it.  Blanks end an argument except
   inside quotes.  2n backslashes before a quote stand for n, and the quote begins or ends a
   quoted part; 2n+1 stand for n and a literal quote; other backslashes are literal.
   */
  function ReadArg(s: string, quoting: bool): (r: (string, string))
    ensures |r.1| <= |s|
    ensures s != "" && (quoting || !Blank(s[0])) ==> |r.1| < |s|
    decreases |s|
  {
    if s == "" || (!quoting && Blank(s[0])) then ("", s)
    else if s[0] == BACKSLASH then
      var n := Run(s);
      if n < |s| && s[n] == QUOTE then
        if n % 2 == 0 then
          var (text, rest) := ReadArg(s[n + 1..], !quoting);
          (Repeat(BACKSLASH, n / 2) + text, rest)
        else
          var (text, rest) := ReadArg(s[n + 1..], quoting);
          (Repeat(BACKSLASH, n / 2) + [QUOTE] + text, rest)
      else
        var (text, rest) := ReadArg(s[n..], quoting);
        (Repeat(BACKSLASH, n) + text, rest)
    else if s[0] == QUOTE then ReadArg(s[1..], !quoting)
    else
      var (text, rest) := ReadArg(s[1..], quoting);
      ([s[0]] + text, rest)
  }

  function SplitArgs(s: string): seq<string>
    decreases |s|
  {
    if s == "" then []
    else if Blank(s[0]) then SplitArgs(s[1..])
    else
      var (text, rest) := ReadArg(s, false);
      [text] + SplitArgs(rest)
  }

  // ----- one argument -----

  /** An argument ends here: at the end of the line, or at a blank. */
  predicate Ends(rest: string) {
    rest == "" || Blank(rest[0])
  }

  /** A run of backslashes before a quote, and before anything else. */
  lemma ReadRun(n: nat, tail: string, quoting: bool)
    requires n > 0 && (tail == "" || tail[0] != BACKSLASH)
    ensures var r := ReadArg(Repeat(BACKSLASH, n) + tail, quoting);
      if tail != "" && tail[0] == QUOTE then
        if n % 2 == 0 then
          r == (Repeat(BACKSLASH, n / 2) + ReadArg(tail[1..], !quoting).0, ReadArg(tail[1..], !quoting).1)
        else
          r == (Repeat(BACKSLASH, n / 2) + [QUOTE] + ReadArg(tail[1..], quoting).0, ReadArg(tail[1..], quoting).1)
      else r == (Repeat(BACKSLASH, n) + ReadArg(tail, quoting).0, ReadArg(tail, quoting).1)
  {
    var line := Repeat(BACKSLASH, n) + tail;
    RunAfter(line, n);
    assert line[n..] == tail;
    if tail != "" {
      assert line[n] == tail[0] && line[n + 1..] == tail[1..];
    }
  }

  lemma {:induction false} ReadEscaped(arg: string, rest: string)
    requires Ends(rest)
    ensures ReadArg(Escape(arg) + [QUOTE] + rest, true) == (arg, rest)
    decreases |arg|, 1
  {
    if arg == "" {
      assert (Escape(arg) + [QUOTE] + rest)[1..] == rest;
      assert ReadArg(rest, false) == ("", rest);
    } else if arg[0] == BACKSLASH {
      ReadEscapedRun(arg, rest);
    } else {
      ReadEscaped(arg[1..], rest);
      if arg[0] == QUOTE {
        ReadEscapedQuote(arg, 0, rest);
      } else {
        ReadEscapedOther(arg, rest);
      }
    }
  }

  lemma ReadChar(c: char, tail: string)
    requires c != BACKSLASH && c != QUOTE
    ensures ReadArg([c] + tail, true) == ([c] + ReadArg(tail, true).0, ReadArg(tail, true).1)
  {
    assert ([c] + tail)[1..] == tail;
  }

  lemma EscapedLineOther(c: char, tail: string, rest: string)
    requires c != BACKSLASH && c != QUOTE
    ensures Escape([c] + tail) + [QUOTE] + rest == [c] + (Escape(tail) + [QUOTE] + rest)
  {
    assert ([c] + tail)[1..] == tail;
    assert Escape([c] + tail) == [c] + Escape(tail);
    hide Escape;
  }

  lemma ReadEscapedOther(arg: string, rest: string)
    requires arg != "" && arg[0] != BACKSLASH && arg[0] != QUOTE
    requires ReadArg(Escape(arg[1..]) + [QUOTE] + rest, true) == (arg[1..], rest)
    ensures ReadArg(Escape(arg) + [QUOTE] + rest, true) == (arg, rest)
  {
    hide ReadArg, Escape;
    assert arg == [arg[0]] + arg[1..];
    EscapedLineOther(arg[0], arg[1..], rest);
    ReadChar(arg[0], Escape(arg[1..]) + [QUOTE] + rest);
  }

  lemma {:induction false} ReadEscapedRun(arg: string, rest: string)
    requires Ends(rest) && arg != "" && arg[0] == BACKSLASH
    ensures ReadArg(Escape(arg) + [QUOTE] + rest, true) == (arg, rest)
    decreases |arg|, 0
  {
    var n := Run(arg);
    if n == |arg| {
      ReadEscapedEnd(arg, rest);
    } else if arg[n] == QUOTE {
      ReadEscaped(arg[n + 1..], rest);
      ReadEscapedQuote(arg, n, rest);
    } else {
      ReadEscaped(arg[n..], rest);
      ReadEscapedBefore(arg, n, rest);
    }
  }

  lemma AllBackslashes(arg: string)
    requires Run(arg) == |arg| > 0
    ensures arg == Repeat(BACKSLASH, |arg|) && Escape(arg) == Repeat(BACKSLASH, 2 * |arg|)
  {
    assert arg[|arg|..] == "";
    assert Repeat(BACKSLASH, 2 * |arg|) + "" == Repeat(BACKSLASH, 2 * |arg|);
  }

  lemma ReadEndAfterRun(n: nat, rest: string)
    requires n > 0 && Ends(rest)
    ensures ReadArg(Repeat(BACKSLASH, 2 * n) + ([QUOTE] + rest), true) == (Repeat(BACKSLASH, n), rest)
  {
    assert ReadArg(rest, false) == ("", rest);
    hide ReadArg, Repeat, Run;
    var tail := [QUOTE] + rest;
    ReadRun(2 * n, tail, true);
    assert tail[1..] == rest;
    assert Repeat(BACKSLASH, n) + "" == Repeat(BACKSLASH, n);
  }

  lemma ReadEscapedEnd(arg: string, rest: string)
    requires Ends(rest) && Run(arg) == |arg| > 0
    ensures ReadArg(Escape(arg) + [QUOTE] + rest, true) == (arg, rest)
  {
    hide *;
    AllBackslashes(arg);
    ReadEndAfterRun(|arg|, rest);
    Regroup(Escape(arg), [QUOTE], rest);
  }

  lemma ReadEscapedBefore(arg: string, n: nat, rest: string)
    requires 0 < n == Run(arg) < |arg| && arg[n] != QUOTE
    requires ReadArg(Escape(arg[n..]) + [QUOTE] + rest, true) == (arg[n..], rest)
    ensures ReadArg(Escape(arg) + [QUOTE] + rest, true) == (arg, rest)
  {
    var after := arg[n..];
    EscapeOfRun(arg, n);
    assert Escape(after)[0] == after[0];
    hide Escape, ReadArg;
    assert arg == Repeat(BACKSLASH, n) + after;
    hide Run, Repeat;
    var run := Repeat(BACKSLASH, n);
    var tail := Escape(after) + [QUOTE] + rest;
    assert run + Escape(after) + [QUOTE] + rest == run + tail;
    ReadRun(n, tail, true);
  }

  lemma EscapeOfQuoteRun(arg: string, n: nat)
    requires n == Run(arg) < |arg| && arg[n] == QUOTE
    ensures Escape(arg) == Repeat(BACKSLASH, 2 * n) + ([BACKSLASH, QUOTE] + Escape(arg[n + 1..]))
  {
    var after := arg[n..];
    assert after[1..] == arg[n + 1..];
    assert Escape(after) == [BACKSLASH, QUOTE] + Escape(arg[n + 1..]);
    if n > 0 {
      EscapeOfRun(arg, n);
    } else {
      assert arg == after;
      assert Repeat(BACKSLASH, 0) + Escape(after) == Escape(after);
    }
  }

  lemma EscapedLine(arg: string, n: nat, rest: string)
    requires n == Run(arg) < |arg| && arg[n] == QUOTE
    ensures Escape(arg) + [QUOTE] + rest == Repeat(BACKSLASH, 2 * n + 1) + ([QUOTE] + (Escape(arg[n + 1..]) + [QUOTE] + rest))
  {
    EscapeOfQuoteRun(arg, n);
    RegroupQuote(Repeat(BACKSLASH, 2 * n), Escape(arg[n + 1..]), rest);
    assert Repeat(BACKSLASH, 2 * n) + [BACKSLASH] == Repeat(BACKSLASH, 2 * n + 1);
    hide *;
  }

  lemma RunThenQuote(arg: string, n: nat)
    requires n == Run(arg) < |arg| && arg[n] == QUOTE
    ensures arg == Repeat(BACKSLASH, n) + [QUOTE] + arg[n + 1..]
  {
    hide Run;
    var whole := Repeat(BACKSLASH, n) + [QUOTE] + arg[n + 1..];
    forall i | 0 <= i < |arg|
      ensures arg[i] == whole[i]
    {
    }
  }

  /** n backslashes and a quote: 2n+1 backslashes and the quote come back as they were. */
  lemma ReadEscapedQuote(arg: string, n: nat, rest: string)
    requires n == Run(arg) < |arg| && arg[n] == QUOTE
    requires ReadArg(Escape(arg[n + 1..]) + [QUOTE] + rest, true) == (arg[n + 1..], rest)
    ensures ReadArg(Escape(arg) + [QUOTE] + rest, true) == (arg, rest)
  {
    hide *;
    EscapedLine(arg, n, rest);
    RunThenQuote(arg, n);
    var inner := Escape(arg[n + 1..]) + [QUOTE] + rest;
    ReadQuoteAfterRun(n, inner);
  }

  lemma ReadQuoteAfterRun(n: nat, inner: string)
    ensures ReadArg(Repeat(BACKSLASH, 2 * n + 1) + ([QUOTE] + inner), true)
         == (Repeat(BACKSLASH, n) + [QUOTE] + ReadArg(inner, true).0, ReadArg(inner, true).1)
  {
    hide ReadArg, Repeat, Run;
    var tail := [QUOTE] + inner;
    ReadRun(2 * n + 1, tail, true);
    assert tail[1..] == inner;
  }

  lemma RegroupQuote(run: string, escaped: string, rest: string)
    ensures run + ([BACKSLASH, QUOTE] + escaped) + [QUOTE] + rest == run + [BACKSLASH] + ([QUOTE] + (escaped + [QUOTE] + rest))
  {
  }

  /** Text that needs no quotes and has no blank is read as it stands. */
  lemma {:induction false} ReadPlain(text: string, placeholders: bool, rest: string)
    requires !NeedsQuotes(text, placeholders) && TAB !in text && Ends(rest)
    ensures ReadArg(text + rest, false) == (text, rest)
  {
    if text == "" {
      assert text + rest == rest;
    } else {
      assert !Quotable(text[0], placeholders) && text[0] in text;
      assert (text + rest)[0] == text[0] && (text + rest)[1..] == text[1..] + rest;
      assert text == [text[0]] + text[1..];
      TailNeedsNoQuotes(text, placeholders);
      ReadPlain(text[1..], placeholders, rest);
    }
  }

  /** What quoting can carry: an argument that is not empty, and has no tab unless something else in it asks for quotes. */
  predicate Recoverable(arg: string, placeholders: bool) {
    arg != "" && (TAB in arg ==> NeedsQuotes(arg, placeholders))
  }

  lemma ReadInQuotes(arg: string, rest: string)
    requires Ends(rest)
    ensures ReadArg([QUOTE] + Escape(arg) + [QUOTE] + rest, false) == (arg, rest)
  {
    var line := [QUOTE] + Escape(arg) + [QUOTE] + rest;
    assert line[1..] == Escape(arg) + [QUOTE] + rest;
    ReadEscaped(arg, rest);
    hide Escape;
  }

  lemma ReadQuoted(arg: string, placeholders: bool, rest: string)
    requires Recoverable(arg, placeholders) && Ends(rest)
    ensures SplitArgs(Quoted(arg, placeholders) + rest) == [arg] + SplitArgs(rest)
  {
    if NeedsQuotes(arg, placeholders) {
      ReadInQuotes(arg, rest);
    } else {
      TailNeedsNoQuotes(arg, placeholders);
      assert arg[0] in arg;
      ReadPlain(arg, placeholders, rest);
    }
    hide ReadArg, Escape;
  }

  // ----- an argument that quoting cannot carry falls apart at its tabs -----

  lemma TailNeedsNoQuotes(text: string, placeholders: bool)
    requires text != "" && !NeedsQuotes(text, placeholders)
    ensures !Quotable(text[0], placeholders) && !NeedsQuotes(text[1..], placeholders)
  {
    assert forall i :: 0 <= i < |text[1..]| ==> text[1..][i] == text[i + 1];
  }

  /** A token with the end of the text after it. */
  lemma {:induction false} ReadToTab(text: string, placeholders: bool, rest: string) returns (token: string, left: string)
    requires !NeedsQuotes(text, placeholders) && Ends(rest)
    ensures ReadArg(text, false) == (token, left) && ReadArg(text + rest, false) == (token, left + rest)
    ensures text == token + left && Ends(left) && TAB !in token
    ensures text != "" && text[0] != TAB ==> token != ""
  {
    if text == "" {
      assert text + rest == rest;
      token, left := "", "";
    } else {
      TailNeedsNoQuotes(text, placeholders);
      assert (text + rest)[0] == text[0] && (text + rest)[1..] == text[1..] + rest;
      assert text == [text[0]] + text[1..];
      if text[0] == TAB {
        token, left := "", text;
      } else {
        token, left := ReadToTab(text[1..], placeholders, rest);
        token := [text[0]] + token;
      }
    }
  }

  lemma {:induction false} SplitUnquoted(text: string, placeholders: bool, rest: string)
    requires !NeedsQuotes(text, placeholders) && Ends(rest)
    ensures SplitArgs(text + rest) == SplitArgs(text) + SplitArgs(rest)
    ensures forall token :: token in SplitArgs(text) ==> Recoverable(token, placeholders)
    decreases |text|
  {
    if text == "" {
      assert text + rest == rest;
    } else {
      TailNeedsNoQuotes(text, placeholders);
      if text[0] == TAB {
        assert (text + rest)[1..] == text[1..] + rest;
        SplitUnquoted(text[1..], placeholders, rest);
      } else {
        var token, left := ReadToTab(text, placeholders, rest);
        assert text[|token|..] == left;
        LaterNeedsNoQuotes(text, placeholders, |token|);
        SplitUnquoted(left, placeholders, rest);
        SplitFirst(text, token, left);
        assert (text + rest)[0] == text[0];
        SplitFirst(text + rest, token, left + rest);
        hide ReadArg, SplitArgs, NeedsQuotes;
        Regroup([token], SplitArgs(left), SplitArgs(rest));
      }
    }
  }

  lemma SplitFirst(line: string, token: string, left: string)
    requires line != "" && !Blank(line[0]) && ReadArg(line, false) == (token, left)
    ensures SplitArgs(line) == [token] + SplitArgs(left)
  {
  }

  lemma LaterNeedsNoQuotes(text: string, placeholders: bool, n: nat)
    requires !NeedsQuotes(text, placeholders) && n <= |text|
    ensures !NeedsQuotes(text[n..], placeholders)
  {
    assert forall i :: 0 <= i < |text[n..]| ==> text[n..][i] == text[n + i];
  }

  // ----- whole command lines -----

  /** The arguments quoted and joined with single spaces. */
  function Line(args: seq<string>, placeholders: bool): string {
    if args == [] then ""
    else Quoted(args[0], placeholders) + if |args| == 1 then "" else [SPACE] + Line(args[1..], placeholders)
  }

  /** What the splitter makes of the line: each argument itself, or the pieces it falls into. */
  function Pieces(args: seq<string>, placeholders: bool): seq<string> {
    if args == [] then []
    else (if Recoverable(args[0], placeholders) then [args[0]] else SplitArgs(args[0])) + Pieces(args[1..], placeholders)
  }

  lemma {:induction false} SplitLine(args: seq<string>, placeholders: bool)
    ensures SplitArgs(Line(args, placeholders)) == Pieces(args, placeholders)
    ensures forall piece :: piece in Pieces(args, placeholders) ==> Recoverable(piece, placeholders)
  {
    if args != [] {
      var rest := if |args| == 1 then "" else [SPACE] + Line(args[1..], placeholders);
      SplitLine(args[1..], placeholders);
      assert SplitArgs(rest) == Pieces(args[1..], placeholders) by {
        if |args| > 1 {
          assert rest[1..] == Line(args[1..], placeholders);
        }
      }
      if Recoverable(args[0], placeholders) {
        ReadQuoted(args[0], placeholders, rest);
      } else {
        SplitUnquoted(args[0], placeholders, rest);
      }
    }
  }

  lemma {:induction false} PiecesOfRecoverable(args: seq<string>, placeholders: bool)
    requires forall i :: 0 <= i < |args| ==> Recoverable(args[i], placeholders)
    ensures Pieces(args, placeholders) == args
  {
    if args != [] {
      PiecesOfRecoverable(args[1..], placeholders);
    }
  }

  /** Splitting undoes quoting for exactly those argument lists whose every argument is recoverable. */
  lemma SplitUndoesQuoting(args: seq<string>, placeholders: bool)
    ensures SplitArgs(Line(args, placeholders)) == args <==> forall i :: 0 <= i < |args| ==> Recoverable(args[i], placeholders)
  {
    SplitLine(args, placeholders);
    if SplitArgs(Line(args, placeholders)) == args {
      assert forall i :: 0 <= i < |args| ==> args[i] in Pieces(args, placeholders);
    } else if forall i :: 0 <= i < |args| ==> Recoverable(args[i], placeholders) {
      PiecesOfRecoverable(args, placeholders);
    }
  }

  /** Non-empty, tab-free arguments always survive, with or without placeholder quoting. */
  lemma OrdinaryArgumentsSurvive(args: seq<string>, placeholders: bool)
    requires forall i :: 0 <= i < |args| ==> args[i] != "" && TAB !in args[i]
    ensures SplitArgs(Line(args, placeholders)) == args
  {
    SplitUndoesQuoting(args, placeholders);
  }

  // ----- placeholders -----

  /** Text that is the same inside quotes as outside, but for its blanks. */
  predicate Unescaped(text: string) {
    forall i :: 0 <= i < |text| ==> text[i] != QUOTE && text[i] != BACKSLASH
  }

  /** What Escape writes for the part of an argument that such text follows. */
  function EscapeBefore(a: string): string
    decreases |a|
  {
    if a == "" then ""
    else if a[0] == BACKSLASH then
      var n := Run(a);
      var rest := a[n..];
      Doubled(n, rest) + EscapeBefore(rest)
    else if a[0] == QUOTE then [BACKSLASH, QUOTE] + EscapeBefore(a[1..])
    else [a[0]] + EscapeBefore(a[1..])
  }

  lemma {:induction false} EscapeUnescaped(text: string, b: string)
    requires Unescaped(text)
    ensures Escape(text + b) == text + Escape(b)
  {
    if text == "" {
      assert text + b == b && text + Escape(b) == Escape(b);
    } else {
      EscapeUnescaped(text[1..], b);
      assert (text + b)[1..] == text[1..] + b;
      assert text == [text[0]] + text[1..];
    }
  }

  function Doubled(n: nat, rest: string): string {
    Repeat(BACKSLASH, if rest != "" && rest[0] == QUOTE then 2 * n else n)
  }

  lemma BeforeOfRun(a: string, n: nat)
    requires 0 < n == Run(a)
    ensures EscapeBefore(a) == Doubled(n, a[n..]) + EscapeBefore(a[n..])
  {
    hide Repeat;
  }

  /** The character after the run, which decides what becomes of it, is not an end. */
  lemma EscapeOfRunAround(a: string, n: nat, text: string, b: string)
    requires 0 < n == Run(a) && text != "" && Unescaped(text)
    ensures Escape(a + text + b) == Doubled(n, a[n..]) + Escape(a[n..] + text + b)
  {
    var run, rest := a[..n], a[n..];
    var tail := rest + text + b;
    assert tail[0] == if rest != "" then rest[0] else text[0];
    assert a == run + rest && a + text + b == run + tail;
    hide Run, Escape, Unescaped;
    EscapeOfRunThen(run, tail);
  }

  lemma EscapeOfRunThen(run: string, tail: string)
    requires run != "" && (forall i :: 0 <= i < |run| ==> run[i] == BACKSLASH) && tail != "" && tail[0] != BACKSLASH
    ensures Escape(run + tail) == Doubled(|run|, tail) + Escape(tail)
  {
    EscapeOfRun(run + tail, |run|);
    assert (run + tail)[|run|..] == tail;
    hide Escape, Repeat;
  }

  lemma EscapeRunBefore(a: string, n: nat, text: string, b: string)
    requires 0 < n == Run(a) && text != "" && Unescaped(text)
    requires Escape(a[n..] + text + b) == EscapeBefore(a[n..]) + text + Escape(b)
    ensures Escape(a + text + b) == EscapeBefore(a) + text + Escape(b)
  {
    hide *;
    BeforeOfRun(a, n);
    EscapeOfRunAround(a, n, text, b);
    var run, rest := Doubled(n, a[n..]), EscapeBefore(a[n..]);
    Regroup(run, rest + text, Escape(b));
    Regroup(run, rest, text);
  }

  lemma BeforeOfChar(a: string)
    requires a != "" && a[0] != BACKSLASH
    ensures EscapeBefore(a) == Piece(a[0]) + EscapeBefore(a[1..])
  {
  }

  lemma EscapeCharBefore(a: string, text: string, b: string)
    requires a != "" && a[0] != BACKSLASH
    requires Escape(a[1..] + text + b) == EscapeBefore(a[1..]) + text + Escape(b)
    ensures Escape(a + text + b) == EscapeBefore(a) + text + Escape(b)
  {
    hide *;
    BeforeOfChar(a);
    EscapeOfChar(a + text + b);
    assert (a + text + b)[1..] == a[1..] + text + b;
    Regroup(Piece(a[0]), EscapeBefore(a[1..]) + text, Escape(b));
    Regroup(Piece(a[0]), EscapeBefore(a[1..]), text);
  }

  lemma {:induction false} EscapeAround(a: string, text: string, b: string)
    requires text != "" && Unescaped(text)
    ensures Escape(a + text + b) == EscapeBefore(a) + text + Escape(b)
    decreases |a|
  {
    hide Escape, Unescaped;
    if a == "" {
      EscapeUnescaped(text, b);
      assert "" + text == text;
    } else if a[0] == BACKSLASH {
      var n := Run(a);
      EscapeAround(a[n..], text, b);
      EscapeRunBefore(a, n, text, b);
    } else {
      EscapeAround(a[1..], text, b);
      EscapeCharBefore(a, text, b);
    }
  }

  /**
   Why '%' is quoted when placeholders are asked for: wherever it stands in an argument, any
   text without quotes and backslashes, blanks included, may be put in its place in the
   quoted form, and the argument still arrives as one.
   */
  lemma PlaceholderHoldsBlanks(a: string, b: string) returns (before: string, after: string)
    ensures Quoted(a + "%" + b, true) == before + "%" + after
    ensures forall text :: text != "" && Unescaped(text) ==> SplitArgs(before + text + after) == [a + text + b]
  {
    assert Quotable((a + "%" + b)[|a|], true);
    before, after := [QUOTE] + EscapeBefore(a), Escape(b) + [QUOTE];
    hide Escape, EscapeBefore, SplitArgs, Quotable;
    EscapeAround(a, "%", b);
    Around(EscapeBefore(a), "%", Escape(b));
    forall text | text != "" && Unescaped(text) ensures SplitArgs(before + text + after) == [a + text + b] {
      hide *;
      EscapeAround(a, text, b);
      SplitOneQuoted(a + text + b);
      Around(EscapeBefore(a), text, Escape(b));
    }
  }

  lemma Around(e: string, text: string, f: string)
    ensures [QUOTE] + (e + text + f) + [QUOTE] == [QUOTE] + e + text + (f + [QUOTE])
  {
  }

  lemma SplitOneQuoted(arg: string)
    ensures SplitArgs([QUOTE] + Escape(arg) + [QUOTE]) == [arg]
  {
    var line := [QUOTE] + Escape(arg) + [QUOTE];
    assert line + "" == line;
    ReadInQuotes(arg, "");
  }

  /** Without them it is not, and the text may come apart. */
  lemma PlainPercentMaySplit()
    ensures Quoted("%", false) == "%" && SplitArgs("a b") == ["a", "b"]
  {
    assert "a b"[1..] == " b" && " b"[1..] == "b" && "b"[1..] == "";
    assert ReadArg(" b", false) == ("", " b") && ReadArg("", false) == ("", "");
    assert ['a'] + "" == "a" && ['b'] + "" == "b";
    assert ReadArg("a b", false) == ("a", " b") && ReadArg("b", false) == ("b", "");
    assert SplitArgs(" b") == SplitArgs("b") == ["b"] + [];
  }
}
