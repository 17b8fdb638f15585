/**
 base/command_line.cc, POSIX: how an argument vector is put into normal form,
 switches before arguments, and when doing so twice is the same as doing it once.
 */
module CommandLine {
  import opened Sequences
  import opened Wrappers

  // ----- the strings -----

  /** kWhitespaceASCII. */
  predicate White(c: char) {
    '\t' <= c <= '\r' || c == ' '
  }

  function TrimLeft(s: string): (t: string)
    ensures |t| <= |s|
  {
    if s != "" && White(s[0]) then TrimLeft(s[1..]) else s
  }

  function TrimRight(s: string): (t: string)
    ensures |t| <= |s|
  {
    if s != "" && White(s[|s| - 1]) then TrimRight(s[..|s| - 1]) else s
  }

  /** TrimWhitespace(..., TRIM_ALL, ...). */
  function Trim(s: string): string {
    TrimRight(TrimLeft(s))
  }

  predicate Trimmed(s: string) {
    s == "" || (!White(s[0]) && !White(s[|s| - 1]))
  }

  lemma {:induction false} TrimRightIsTrimmed(s: string)
    requires s == "" || !White(s[0])
    ensures Trimmed(TrimRight(s))
    ensures TrimRight(s) != "" ==> s != "" && TrimRight(s)[0] == s[0]
  {
    if s != "" && White(s[|s| - 1]) {
      TrimRightIsTrimmed(s[..|s| - 1]);
    }
  }

  lemma {:induction false} TrimLeftStops(s: string)
    ensures TrimLeft(s) == "" || !White(TrimLeft(s)[0])
  {
    if s != "" && White(s[0]) {
      TrimLeftStops(s[1..]);
    }
  }

  lemma TrimIsTrimmed(s: string)
    ensures Trimmed(Trim(s))
  {
    TrimLeftStops(s);
    TrimRightIsTrimmed(TrimLeft(s));
  }

  lemma TrimChangesNothing(s: string)
    ensures Trim(s) == s <==> Trimmed(s)
  {
    TrimIsTrimmed(s);
  }

  const TERMINATOR := "--"

  /** kSwitchPrefixes: the longer one is tried first. */
  function PrefixLength(s: string): (n: nat)
    ensures n <= |s|
  {
    if "--" <= s then 2 else if "-" <= s then 1 else 0
  }

  /** The position of the first '=', or the length. */
  function FindEquals(s: string): (n: nat)
    ensures n <= |s|
    ensures '=' !in s[..n]
    ensures n < |s| ==> s[n] == '='
  {
    if s == "" || s[0] == '=' then 0
    else
      assert s[..1 + FindEquals(s[1..])] == [s[0]] + s[1..][..FindEquals(s[1..])];
      1 + FindEquals(s[1..])
  }

  /** A switch keeps its prefix in `name`. */
  datatype Switch = Switch(name: string, value: string)

  function AsSwitch(s: string): Option<Switch> {
    var prefix := PrefixLength(s);
    if prefix == 0 || prefix == |s| then None
    else
      var eq := FindEquals(s);
      Some(if eq == |s| then Switch(s, "") else Switch(s[..eq], s[eq + 1..]))
  }

  /** What AppendSwitchNative puts into argv. */
  function Rendered(sw: Switch): string {
    (if PrefixLength(sw.name) == 0 then "--" + sw.name else sw.name) + (if sw.value == "" then "" else "=" + sw.value)
  }

  function Key(sw: Switch): string {
    sw.name[PrefixLength(sw.name)..]
  }

  // ----- what a vector of arguments means -----

  /** AppendSwitchesAndArguments on everything after the program: the switches met and the arguments met. */
  function Parse(args: seq<string>, switching: bool): (seq<Switch>, seq<string>) {
    if args == [] then ([], [])
    else
      var arg := Trim(args[0]);
      var on := switching && arg != TERMINATOR;
      var (switches, rest) := Parse(args[1..], on);
      if on && AsSwitch(arg).Some? then ([AsSwitch(arg).value] + switches, rest)
      else (switches, [arg] + rest)
  }

  function RenderAll(switches: seq<Switch>): (r: seq<string>)
    ensures |r| == |switches|
    ensures forall i :: 0 <= i < |r| ==> r[i] == Rendered(switches[i])
  {
    seq(|switches|, i requires 0 <= i < |switches| => Rendered(switches[i]))
  }

  /** The switch map: a later value for the same key replaces an earlier one. */
  function SwitchMap(switches: seq<Switch>): map<string, string> {
    if switches == [] then map[]
    else
      var last := switches[|switches| - 1];
      SwitchMap(switches[..|switches| - 1])[Key(last) := last.value]
  }

  /** argv_, switches_ and begin_args_. */
  datatype State = State(argv: seq<string>, switches: map<string, string>, beginArgs: nat)

  function Normal(program: string, switches: seq<Switch>, args: seq<string>): State {
    State([program] + RenderAll(switches) + args, SwitchMap(switches), 1 + |switches|)
  }

  lemma NormalAppend(program: string, switches: seq<Switch>, args: seq<string>, sw: Switch)
    ensures var s := Normal(program, switches, args);
      Normal(program, switches + [sw], args)
        == State(s.argv[..s.beginArgs] + [Rendered(sw)] + s.argv[s.beginArgs..], s.switches[Key(sw) := sw.value], s.beginArgs + 1)
  {
    assert (switches + [sw])[..|switches|] == switches;
    assert RenderAll(switches + [sw]) == RenderAll(switches) + [Rendered(sw)];
    hide Rendered, Key, RenderAll;
  }

  /** InitFromArgv. */
  function Init(argv: seq<string>): State {
    if argv == [] then Normal("", [], [])
    else var (switches, args) := Parse(argv[1..], true); Normal(Trim(argv[0]), switches, args)
  }

  // ----- the class -----

  class CommandLine {
    var argv: seq<string>
    var switches: map<string, string>
    /** switches_by_stringpiece_: each key leads to the entry of `switches` it points at. */
    var byPiece: map<string, string>
    var beginArgs: nat

    /** What has been appended so far. */
    ghost var program: string
    ghost var met: seq<Switch>
    ghost var args: seq<string>

    /** argv is the program, the switches in order, then the arguments in order; beginArgs marks the boundary. */
    ghost predicate Valid()
      reads this
    {
      && State(argv, switches, beginArgs) == Normal(program, met, args)
      && byPiece.Keys == switches.Keys
      && forall key :: key in byPiece ==> byPiece[key] == key
    }

    constructor (from: seq<string>)
      ensures Valid() && State(argv, switches, beginArgs) == Init(from)
    {
      argv, switches, byPiece, beginArgs := [""], map[], map[], 1;
      program, met, args := "", [], [];
      new;
      InitFromArgv(from);
    }

    method InitFromArgv(from: seq<string>)
      modifies this
      ensures Valid() && State(argv, switches, beginArgs) == Init(from)
    {
      argv, switches, byPiece, beginArgs := [""], map[], map[], 1;
      program, met, args := "", [], [];
      assert argv == [""] + RenderAll([]) + [];
      SetProgram(if from == [] then "" else from[0]);
      AppendSwitchesAndArguments(from);
      ghost var (newSwitches, newArgs) := Parse(if from == [] then [] else from[1..], true);
      assert [] + newSwitches == newSwitches && [] + newArgs == newArgs;
    }

    method SetProgram(name: string)
      requires Valid()
      modifies this`argv, this`program
      ensures Valid() && program == Trim(name)
    {
      argv := argv[0 := Trim(name)];
      program := Trim(name);
    }

    /** On top of whatever is there already, new switches follow the old switches and new arguments the old arguments. */
    method AppendSwitchesAndArguments(from: seq<string>)
      requires Valid()
      modifies this
      ensures Valid() && program == old(program)
      ensures var (newSwitches, newArgs) := Parse(if from == [] then [] else from[1..], true);
        met == old(met) + newSwitches && args == old(args) + newArgs
    {
      var switching := true;
      ghost var all := Parse(if from == [] then [] else from[1..], true);
      hide Trim, AsSwitch, Parse, Progress, Normal, SwitchMap, Valid;
      ghost var s: seq<Switch>, a: seq<string> := [], [];
      ProgressBegins(from, all);
      assert [] + all.0 == all.0 && [] + all.1 == all.1;
      var i := 1;
      while i < |from|
        invariant 1 <= i && (from != [] ==> i <= |from|)
        invariant Valid() && program == old(program)
        invariant met == old(met) + s && args == old(args) + a
        invariant Progress(from, i, switching, all, s, a)
      {
        ParseNext(from, i, switching, all, s, a);
        var arg := Trim(from[i]);
        switching := switching && arg != TERMINATOR;
        ghost var sw, rest := AppendOne(arg, switching);
        Regroup(old(met), s, sw);
        Regroup(old(args), a, rest);
        s, a := s + sw, a + rest;
        i := i + 1;
      }
      ProgressEnds(from, i, switching, all, s, a);
    }

    /** The body of the loop: a switch, or an argument. */
    method AppendOne(arg: string, switching: bool) returns (ghost s: seq<Switch>, ghost a: seq<string>)
      requires Valid()
      modifies this
      ensures Valid() && program == old(program) && met == old(met) + s && args == old(args) + a
      ensures (s, a) == One(arg, switching)
    {
      hide Valid;
      if switching && AsSwitch(arg).Some? {
        AppendSwitchNative(AsSwitch(arg).value.name, AsSwitch(arg).value.value);
        Empty(args);
      } else {
        AppendArgNative(arg);
        Empty(met);
      }
      s, a := One(arg, switching).0, One(arg, switching).1;
    }

    method AppendSwitchNative(name: string, value: string)
      requires Valid()
      modifies this
      ensures Valid() && program == old(program) && args == old(args)
      ensures met == old(met) + [Switch(name, value)]
      ensures beginArgs == old(beginArgs) + 1 && switches == old(switches)[Key(Switch(name, value)) := value]
      ensures argv == old(argv[..beginArgs]) + [Rendered(Switch(name, value))] + old(argv[beginArgs..])
    {
      var combined := Combine(name, value);
      NormalAppend(program, met, args, Switch(name, value));
      var key := name[PrefixLength(name)..];
      assert key == Key(Switch(name, value));
      hide Normal, Rendered, Key;
      switches := switches[key := value];
      byPiece := byPiece[key := key];
      argv := argv[..beginArgs] + [combined] + argv[beginArgs..];
      beginArgs := beginArgs + 1;
      met := met + [Switch(name, value)];
    }

    /** The text of a switch: an existing prefix is kept, and one is added only if there is none. */
    static method Combine(name: string, value: string) returns (combined: string)
      ensures combined == Rendered(Switch(name, value))
      ensures var prefixed := name != "" && name[0] == '-';
        combined == (if prefixed then "" else "--") + name + (if value == "" then "" else "=" + value)
    {
      combined := if PrefixLength(name) == 0 then "--" + name else name;
      if value != "" {
        combined := combined + ("=" + value);
      }
    }

    method AppendArgNative(value: string)
      requires Valid()
      modifies this`argv, this`args
      ensures Valid() && args == old(args) + [value] && met == old(met) && program == old(program)
    {
      argv := argv + [value];
      args := args + [value];
    }

    /** The arguments, without the first terminator. */
    method GetArgs() returns (result: seq<string>)
      requires Valid()
      ensures result == WithoutFirst(args, TERMINATOR)
    {
      result := argv[beginArgs..];
      assert result == args;
      result := EraseFirstTerminator(result);
    }

    static method EraseFirstTerminator(all: seq<string>) returns (result: seq<string>)
      ensures result == WithoutFirst(all, TERMINATOR)
    {
      result := all;
      var i := 0;
      while i < |result| && result[i] != TERMINATOR
        invariant i <= |result| && forall k :: 0 <= k < i ==> result[k] != TERMINATOR
      {
        i := i + 1;
      }
      FirstTerminator(all, i);
      if i < |result| {
        result := result[..i] + result[i + 1..];
      }
    }

    method HasSwitch(key: string) returns (found: bool)
      requires Valid()
      ensures found <==> Has(met, key)
    {
      SwitchMapHoldsLast(met, key);
      found := key in byPiece;
    }

    /** Through the mirror: the last value given for the key, or the empty string. */
    method GetSwitchValueNative(key: string) returns (value: string)
      requires Valid()
      ensures Gives(met, key, value)
    {
      SwitchMapHoldsLast(met, key);
      value := if key in byPiece then switches[byPiece[key]] else "";
    }
  }

  function WithoutFirst(args: seq<string>, arg: string): seq<string> {
    if args == [] then [] else if args[0] == arg then args[1..] else [args[0]] + WithoutFirst(args[1..], arg)
  }

  lemma {:induction false} FirstTerminator(all: seq<string>, i: nat)
    requires i <= |all| && (forall k :: 0 <= k < i ==> all[k] != TERMINATOR) && (i < |all| ==> all[i] == TERMINATOR)
    ensures WithoutFirst(all, TERMINATOR) == if i < |all| then all[..i] + all[i + 1..] else all
  {
    if i > 0 {
      FirstTerminator(all[1..], i - 1);
      assert all == [all[0]] + all[1..];
    }
  }

  /** The switch at position i is the last one with the key. */
  ghost predicate LastWith(switches: seq<Switch>, key: string, i: nat) {
    && i < |switches| && Key(switches[i]) == key
    && forall j :: i < j < |switches| ==> Key(switches[j]) != key
  }

  ghost predicate Has(switches: seq<Switch>, key: string) {
    exists i :: 0 <= i < |switches| && Key(switches[i]) == key
  }

  /** The value of the last switch with the key, or the empty string when there is none. */
  ghost predicate Gives(switches: seq<Switch>, key: string, value: string) {
    if Has(switches, key) then exists i: nat :: LastWith(switches, key, i) && switches[i].value == value
    else value == ""
  }

  lemma HasStep(front: seq<Switch>, last: Switch, key: string)
    ensures Has(front + [last], key) <==> Has(front, key) || Key(last) == key
  {
    var all, n := front + [last], |front|;
    hide Key;
    assert all[n] == last && forall i :: 0 <= i < n ==> all[i] == front[i];
    if Has(front, key) {
      var i :| 0 <= i < n && Key(front[i]) == key;
      assert Key(all[i]) == key;
    }
    if Key(last) == key {
      assert Key(all[n]) == key;
    }
  }

  lemma GivesStep(front: seq<Switch>, last: Switch, key: string, value: string)
    requires if Key(last) == key then value == last.value else Gives(front, key, value)
    ensures Gives(front + [last], key, value)
  {
    var all, n := front + [last], |front|;
    HasStep(front, last, key);
    hide Key, Has;
    assert all[n] == last && forall i :: 0 <= i < n ==> all[i] == front[i];
    if Key(last) == key {
      assert LastWith(all, key, n);
    } else if Has(front, key) {
      var i: nat :| LastWith(front, key, i) && front[i].value == value;
      assert LastWith(all, key, i);
    }
  }

  lemma {:induction false} SwitchMapHoldsLast(switches: seq<Switch>, key: string)
    ensures key in SwitchMap(switches) <==> Has(switches, key)
    ensures Gives(switches, key, if key in SwitchMap(switches) then SwitchMap(switches)[key] else "")
  {
    if switches != [] {
      var n := |switches| - 1;
      var front := switches[..n];
      SwitchMapHoldsLast(front, key);
      assert switches == front + [switches[n]];
      HasStep(front, switches[n], key);
      hide Key, Has, Gives;
      GivesStep(front, switches[n], key, if key in SwitchMap(switches) then SwitchMap(switches)[key] else "");
    }
  }

  /** There is one such value, and the switch map has it. */
  lemma GivesFromMap(switches: seq<Switch>, key: string, value: string)
    ensures Gives(switches, key, value) <==> value == if key in SwitchMap(switches) then SwitchMap(switches)[key] else ""
  {
    SwitchMapHoldsLast(switches, key);
    hide Key, SwitchMap;
  }

  /** At position i of the loop: s and a have been met, and the rest of the parse is still to come. */
  ghost predicate Progress(from: seq<string>, i: nat, switching: bool, all: (seq<Switch>, seq<string>), s: seq<Switch>, a: seq<string>) {
    if i < |from| then
      var rest := Parse(from[i..], switching);
      all == (s + rest.0, a + rest.1)
    else all == (s, a)
  }

  lemma ProgressBegins(from: seq<string>, all: (seq<Switch>, seq<string>))
    requires all == Parse(if from == [] then [] else from[1..], true)
    ensures Progress(from, 1, true, all, [], [])
  {
    hide Trim, AsSwitch;
    assert [] + all.0 == all.0 && [] + all.1 == all.1;
  }

  lemma ProgressEnds(from: seq<string>, i: nat, switching: bool, all: (seq<Switch>, seq<string>), s: seq<Switch>, a: seq<string>)
    requires i >= |from| && Progress(from, i, switching, all, s, a)
    ensures all == (s, a)
  {
  }

  /** What one argument contributes: a switch or a plain argument. */
  function One(arg: string, switching: bool): (seq<Switch>, seq<string>) {
    if switching && AsSwitch(arg).Some? then ([AsSwitch(arg).value], []) else ([], [arg])
  }

  lemma ParseNext(from: seq<string>, i: nat, switching: bool, all: (seq<Switch>, seq<string>), s: seq<Switch>, a: seq<string>)
    requires 0 < i < |from| && Progress(from, i, switching, all, s, a)
    ensures var arg := Trim(from[i]);
      var on := switching && arg != TERMINATOR;
      Progress(from, i + 1, on, all, s + One(arg, on).0, a + One(arg, on).1)
  {
    hide Trim, AsSwitch;
    assert from[i..][1..] == from[i + 1..];
    var arg := Trim(from[i]);
    var on := switching && arg != TERMINATOR;
    var rest, one := Parse(from[i + 1..], on), One(arg, on);
    assert Parse([], on) == ([], []);
    Empty(rest.0);
    Empty(rest.1);
    assert Parse(from[i..], switching) == (one.0 + rest.0, one.1 + rest.1);
    hide *;
    Regroup(s, one.0, rest.0);
    Regroup(a, one.1, rest.1);
    Empty(s + one.0);
    Empty(a + one.1);
  }

  // ----- the normal form is a stable partition -----

  /** Where switches stop being recognised: the first argument that trims to the terminator. */
  function TerminatorAt(args: seq<string>): (n: nat)
    ensures n <= |args|
  {
    if args == [] || Trim(args[0]) == TERMINATOR then 0 else 1 + TerminatorAt(args[1..])
  }

  function SwitchesAmong(args: seq<string>): seq<Switch> {
    if args == [] then []
    else (if AsSwitch(Trim(args[0])).Some? then [AsSwitch(Trim(args[0])).value] else []) + SwitchesAmong(args[1..])
  }

  function OthersAmong(args: seq<string>): seq<string> {
    if args == [] then []
    else (if AsSwitch(Trim(args[0])).Some? then [] else [Trim(args[0])]) + OthersAmong(args[1..])
  }

  function TrimAll(args: seq<string>): seq<string> {
    if args == [] then [] else [Trim(args[0])] + TrimAll(args[1..])
  }

  lemma {:induction false} ParseAfterTerminator(args: seq<string>)
    ensures Parse(args, false) == ([], TrimAll(args))
  {
    if args != [] {
      ParseAfterTerminator(args[1..]);
    }
  }

  /** Before the terminator switches and other arguments each keep their order; from it on everything is an argument. */
  lemma {:induction false} ParseIsPartition(args: seq<string>)
    ensures var n := TerminatorAt(args);
      Parse(args, true) == (SwitchesAmong(args[..n]), OthersAmong(args[..n]) + TrimAll(args[n..]))
  {
    if args == [] {
      assert args[..0] == [] && args[0..] == [];
      assert OthersAmong([]) + TrimAll([]) == [];
    } else {
      ParseIsPartition(args[1..]);
      ParseAfterTerminator(args[1..]);
      var n := TerminatorAt(args);
      if n == 0 {
        assert args[..0] == [] && args[0..] == args && [] + TrimAll(args) == TrimAll(args);
      } else {
        var first, rest := args[0], args[1..][..n - 1];
        assert args[..n] == [first] + rest && args[n..] == args[1..][n - 1..];
        AmongCons(first, rest);
        var others, later := OthersAmong(rest), TrimAll(args[n..]);
        assert Parse(args[1..], true) == (SwitchesAmong(rest), others + later);
        hide SwitchesAmong, OthersAmong, TrimAll, TerminatorAt;
        assert [] + SwitchesAmong(rest) == SwitchesAmong(rest) && [] + others == others;
        if AsSwitch(Trim(first)).Some? {
          assert Parse(args, true) == ([AsSwitch(Trim(first)).value] + SwitchesAmong(rest), others + later);
        } else {
          assert Parse(args, true) == (SwitchesAmong(rest), [Trim(first)] + (others + later));
          Regroup([Trim(first)], others, later);
        }
      }
    }
  }

  lemma AmongCons(first: string, rest: seq<string>)
    ensures SwitchesAmong([first] + rest) == (if AsSwitch(Trim(first)).Some? then [AsSwitch(Trim(first)).value] else []) + SwitchesAmong(rest)
    ensures OthersAmong([first] + rest) == (if AsSwitch(Trim(first)).Some? then [] else [Trim(first)]) + OthersAmong(rest)
  {
    assert ([first] + rest)[1..] == rest;
  }

  // ----- parsing the normal form again -----

  /**
   A switch whose text reads back: an '=' in the name would end it early, white space at the
   end of the text is trimmed, and a prefix alone is no switch.
   */
  predicate Travels(sw: Switch) {
    && '=' !in sw.name
    && if sw.value == "" then Key(sw) != "" && !White(sw.name[|sw.name| - 1]) else !White(sw.value[|sw.value| - 1])
  }

  /** The switch as it is met when its text is read: with the prefix it was given. */
  function Prefixed(sw: Switch): Switch {
    Switch(if PrefixLength(sw.name) == 0 then "--" + sw.name else sw.name, sw.value)
  }

  lemma PrefixedIsSame(sw: Switch)
    ensures Key(Prefixed(sw)) == Key(sw) && Rendered(Prefixed(sw)) == Rendered(sw)
  {
    assert ("--" + sw.name)[2..] == sw.name;
  }

  /** A key is the name without its prefix, whichever prefix the caller gave, and if any. */
  lemma KeyOfName(name: string, value: string)
    requires name == "" || name[0] != '-'
    ensures Key(Switch(name, value)) == name
    ensures name != "" ==> Key(Switch("-" + name, value)) == name && Key(Switch("--" + name, value)) == name
  {
    assert ("-" + name)[1..] == name && ("--" + name)[2..] == name;
  }

  lemma EqualsAfterPrefix(s: string)
    ensures PrefixLength(s) <= FindEquals(s)
    ensures PrefixLength(s[..FindEquals(s)]) == PrefixLength(s)
  {
    var eq := FindEquals(s);
    if eq == 0 && s != "" {
      assert s[0] == '=';
    } else if eq == 1 && |s| > 1 {
      assert s[1] == '=';
    }
  }

  lemma {:induction false} FindEqualsIs(s: string, n: nat)
    requires n <= |s| && '=' !in s[..n] && (n < |s| ==> s[n] == '=')
    ensures FindEquals(s) == n
  {
    if n > 0 {
      assert s[0] in s[..n];
      assert s[1..][..n - 1] == s[..n][1..];
      FindEqualsIs(s[1..], n - 1);
    }
  }

  /** What is known of a switch that Parse produced. */
  ghost predicate Parsed(sw: Switch) {
    && PrefixLength(sw.name) > 0
    && '=' !in sw.name
    && !White(sw.name[0])
    && (sw.value != "" ==> Trimmed(sw.name + "=" + sw.value))
  }

  lemma AsSwitchIsParsed(s: string)
    requires Trimmed(s) && AsSwitch(s).Some?
    ensures Parsed(AsSwitch(s).value)
  {
    EqualsAfterPrefix(s);
    var eq := FindEquals(s);
    if eq < |s| {
      assert s == s[..eq] + "=" + s[eq + 1..];
    } else {
      assert s[..eq] == s;
    }
  }

  lemma TextOf(sw: Switch)
    ensures var r, name := Rendered(sw), Prefixed(sw).name;
      && r == name + (if sw.value == "" then "" else "=" + sw.value)
      && name[0] == '-' && PrefixLength(r) == PrefixLength(name) > 0
  {
    var r, name := Rendered(sw), Prefixed(sw).name;
    assert |r| > |name| ==> r[|name|] == '=';
    assert r[..|name|] == name;
  }

  lemma TravelsBack(sw: Switch)
    requires Travels(sw)
    ensures var r := Rendered(sw); Trim(r) == r && r != TERMINATOR && AsSwitch(r) == Some(Prefixed(sw))
  {
    var r, name := Rendered(sw), Prefixed(sw).name;
    TextOf(sw);
    TrimChangesNothing(r);
    assert r[..|name|] == name && '=' !in name;
    FindEqualsIs(r, |name|);
    if sw.value == "" {
      assert r == name && Key(sw) != "";
    } else {
      assert r[|name| + 1..] == sw.value;
    }
  }

  /** Nothing is trimmed on the left, where the prefix is. */
  lemma TrimText(sw: Switch)
    ensures var r := Rendered(sw); Trim(r) == TrimRight(r)
  {
    TextOf(sw);
  }

  lemma {:induction false} TrimRightIsPrefix(s: string)
    ensures TrimRight(s) <= s
    ensures TrimRight(s) == s <==> s == "" || !White(s[|s| - 1])
  {
    if s != "" && White(s[|s| - 1]) {
      TrimRightIsPrefix(s[..|s| - 1]);
    }
  }

  lemma OnlyTravelsBack(sw: Switch)
    requires '=' !in sw.name && Trim(Rendered(sw)) == Rendered(sw) && AsSwitch(Rendered(sw)).Some?
    ensures Travels(sw)
  {
    var r := Rendered(sw);
    TrimText(sw);
    TrimRightIsPrefix(r);
    assert r[|r| - 1] == if sw.value != "" then sw.value[|sw.value| - 1] else if sw.name == "" then '-' else sw.name[|sw.name| - 1];
  }

  /** A switch is written no longer than it was read. */
  lemma RenderedIsNoLonger(t: string)
    requires AsSwitch(t).Some?
    ensures |Rendered(AsSwitch(t).value)| <= |t|
  {
    EqualsAfterPrefix(t);
    assert t[..|t|] == t;
  }

  lemma EqualsInKey(sw: Switch)
    ensures '=' in sw.name <==> '=' in Key(sw)
  {
    var n := PrefixLength(sw.name);
    assert sw.name == sw.name[..n] + sw.name[n..];
    assert '=' !in sw.name[..n];
  }

  /** The text of an appended switch is read as a switch with its key and its value exactly when the switch travels. */
  lemma ReadsBackIff(sw: Switch)
    ensures var t := Trim(Rendered(sw));
      Travels(sw) <==>
        t != TERMINATOR && AsSwitch(t).Some? && Key(AsSwitch(t).value) == Key(sw) && AsSwitch(t).value.value == sw.value
  {
    var r, t := Rendered(sw), Trim(Rendered(sw));
    if Travels(sw) {
      TravelsBack(sw);
      PrefixedIsSame(sw);
    } else if AsSwitch(t).Some? && Key(AsSwitch(t).value) == Key(sw) && AsSwitch(t).value.value == sw.value {
      var again := AsSwitch(t).value;
      TrimIsTrimmed(r);
      AsSwitchIsParsed(t);
      EqualsInKey(again);
      EqualsInKey(sw);
      RenderedIsNoLonger(t);
      TextOf(sw);
      TextOf(again);
      PrefixedIsSame(sw);
      TrimText(sw);
      TrimRightIsPrefix(r);
      EqualsAfterPrefix(t);
      SamePrefix(t, r);
      assert |Rendered(again)| == |r|;
      OnlyTravelsBack(sw);
      assert false;
    }
  }

  lemma SamePrefix(t: string, r: string)
    requires t <= r && AsSwitch(t).Some?
    ensures PrefixLength(t) == PrefixLength(r)
  {
  }

  lemma {:induction false} SwitchesAreParsed(args: seq<string>, switching: bool)
    ensures forall i :: 0 <= i < |Parse(args, switching).0| ==> Parsed(Parse(args, switching).0[i])
  {
    if args != [] {
      var arg := Trim(args[0]);
      SwitchesAreParsed(args[1..], switching && arg != TERMINATOR);
      TrimIsTrimmed(args[0]);
      hide Trim, Parsed;
      if AsSwitch(arg).Some? {
        AsSwitchIsParsed(arg);
      }
    }
  }

  /** The arguments of a normal form contain no switch before the terminator. */
  ghost predicate Settled(args: seq<string>) {
    Parse(args, true) == ([], args)
  }

  lemma {:induction false} TrimAllTwice(args: seq<string>)
    ensures TrimAll(TrimAll(args)) == TrimAll(args)
  {
    if args != [] {
      TrimIsTrimmed(args[0]);
      TrimChangesNothing(Trim(args[0]));
      hide Trim;
      TrimAllTwice(args[1..]);
      assert TrimAll(args)[1..] == TrimAll(args[1..]);
    }
  }

  lemma {:induction false} ArgumentsSettle(args: seq<string>)
    ensures Settled(Parse(args, true).1)
  {
    if args != [] {
      var arg := Trim(args[0]);
      TrimIsTrimmed(args[0]);
      TrimChangesNothing(arg);
      hide Trim, AsSwitch;
      var a := Parse(args, true).1;
      if arg == TERMINATOR {
        ParseAfterTerminator(args[1..]);
        TrimAllTwice(args[1..]);
        ParseAfterTerminator(TrimAll(args[1..]));
        assert a[1..] == TrimAll(args[1..]);
      } else {
        ArgumentsSettle(args[1..]);
        if AsSwitch(arg).None? {
          assert a[1..] == Parse(args[1..], true).1;
        }
      }
    }
  }

  /** One string in front of others. */
  lemma ParseCons(arg: string, rest: seq<string>)
    ensures var t := Trim(arg);
      Parse([arg] + rest, true) ==
        if t == TERMINATOR then ([], [t] + TrimAll(rest))
        else if AsSwitch(t).Some? then ([AsSwitch(t).value] + Parse(rest, true).0, Parse(rest, true).1)
        else (Parse(rest, true).0, [t] + Parse(rest, true).1)
  {
    assert ([arg] + rest)[1..] == rest;
    ParseAfterTerminator(rest);
  }

  lemma RenderedFirst(switches: seq<Switch>, args: seq<string>)
    requires switches != []
    ensures RenderAll(switches) + args == [Rendered(switches[0])] + (RenderAll(switches[1..]) + args)
  {
    hide Rendered;
  }

  ghost predicate AllTravel(switches: seq<Switch>) {
    forall i :: 0 <= i < |switches| ==> Travels(switches[i])
  }

  function PrefixedAll(switches: seq<Switch>): (r: seq<Switch>)
    ensures |r| == |switches|
    ensures forall i :: 0 <= i < |r| ==> r[i] == Prefixed(switches[i])
  {
    seq(|switches|, i requires 0 <= i < |switches| => Prefixed(switches[i]))
  }

  lemma TravelFirst(first: Switch, later: seq<string>)
    requires Travels(first)
    ensures var rest := Parse(later, true);
      Parse([Rendered(first)] + later, true) == ([Prefixed(first)] + rest.0, rest.1)
  {
    TravelsBack(first);
    ParseCons(Rendered(first), later);
    hide Parse, Rendered, AsSwitch, Trim, Prefixed;
  }

  lemma SettledAlone(args: seq<string>)
    requires Settled(args)
    ensures Parse(RenderAll([]) + args, true) == (PrefixedAll([]), args)
  {
    assert RenderAll([]) + args == args;
  }

  lemma {:induction false} TravelParse(switches: seq<Switch>, args: seq<string>)
    requires Settled(args) && AllTravel(switches)
    ensures Parse(RenderAll(switches) + args, true) == (PrefixedAll(switches), args)
  {
    hide Parse, Rendered, AsSwitch, Trim, RenderAll, Prefixed, Settled, Travels;
    if switches == [] {
      SettledAlone(args);
    } else {
      TravelFirst(switches[0], RenderAll(switches[1..]) + args);
      TravelParse(switches[1..], args);
      RenderedFirst(switches, args);
      assert PrefixedAll(switches) == [Prefixed(switches[0])] + PrefixedAll(switches[1..]);
    }
  }

  lemma {:induction false} PrefixedMap(switches: seq<Switch>)
    ensures SwitchMap(PrefixedAll(switches)) == SwitchMap(switches)
    ensures RenderAll(PrefixedAll(switches)) == RenderAll(switches)
  {
    forall i | 0 <= i < |switches|
      ensures Rendered(Prefixed(switches[i])) == Rendered(switches[i])
    {
      PrefixedIsSame(switches[i]);
    }
    if switches != [] {
      var n := |switches| - 1;
      PrefixedMap(switches[..n]);
      PrefixedIsSame(switches[n]);
      hide Prefixed, Key, Rendered;
      assert PrefixedAll(switches)[..n] == PrefixedAll(switches[..n]);
    }
  }

  /** Settled arguments add no switches to those among the strings before them. */
  lemma {:induction false} NoMoreSwitches(strings: seq<string>, args: seq<string>)
    requires Settled(args)
    ensures |Parse(strings + args, true).0| <= |strings|
  {
    if strings == [] {
      assert strings + args == args;
    } else {
      NoMoreSwitches(strings[1..], args);
      assert strings + args == [strings[0]] + (strings[1..] + args);
      ParseCons(strings[0], strings[1..] + args);
    }
  }

  /** When as many switches are read as were written, each was read from its own text. */
  lemma {:induction false} EachFromItsText(switches: seq<Switch>, args: seq<string>, i: nat)
    requires Settled(args) && i < |switches|
    requires |Parse(RenderAll(switches) + args, true).0| == |switches|
    ensures AsSwitch(Trim(Rendered(switches[i]))) == Some(Parse(RenderAll(switches) + args, true).0[i])
  {
    var text, rest := Rendered(switches[0]), RenderAll(switches[1..]);
    RenderedFirst(switches, args);
    ParseCons(text, rest + args);
    NoMoreSwitches(rest, args);
    hide Settled, Parse, Rendered, AsSwitch, Trim;
    if i > 0 {
      EachFromItsText(switches[1..], args, i - 1);
    }
  }

  /** The state is read back from argv as it is. */
  lemma OnlyTravelParse(switches: seq<Switch>, args: seq<string>)
    requires Settled(args)
    requires var again := Parse(RenderAll(switches) + args, true).0;
      RenderAll(again) == RenderAll(switches) && SwitchMap(again) == SwitchMap(switches)
    ensures AllTravel(switches)
  {
    var strings := RenderAll(switches) + args;
    var again := Parse(strings, true).0;
    SwitchesAreParsed(strings, true);
    hide Parse, Settled;
    assert |again| == |switches|;
    forall i | 0 <= i < |switches| ensures Travels(switches[i]) {
      var sw := switches[i];
      EachFromItsText(switches, args, i);
      assert Rendered(again[i]) == RenderAll(again)[i] == Rendered(sw);
      KeyIsRead(switches, again, i);
      hide Parsed, RenderAll, SwitchMap;
      RenderedIsNoLonger(Trim(Rendered(sw)));
      TrimText(sw);
      TrimRightIsPrefix(Rendered(sw));
      OnlyTravelsBack(sw);
    }
  }

  lemma KeyIsRead(switches: seq<Switch>, again: seq<Switch>, i: nat)
    requires i < |switches| && SwitchMap(again) == SwitchMap(switches)
    requires forall j :: 0 <= j < |again| ==> Parsed(again[j])
    ensures '=' !in switches[i].name
  {
    var key := Key(switches[i]);
    SwitchMapHoldsLast(switches, key);
    SwitchMapHoldsLast(again, key);
    hide Key, SwitchMap, Gives;
    assert Has(switches, key);
    var j :| 0 <= j < |again| && Key(again[j]) == key;
    assert Parsed(again[j]);
    EqualsInKey(again[j]);
    EqualsInKey(switches[i]);
  }

  function SwitchesOf(argv: seq<string>): seq<Switch> {
    if argv == [] then [] else Parse(argv[1..], true).0
  }

  function ArgsOf(argv: seq<string>): seq<string> {
    if argv == [] then [] else Parse(argv[1..], true).1
  }

  function ProgramOf(argv: seq<string>): string {
    if argv == [] then "" else Trim(argv[0])
  }

  lemma InitIsNormal(argv: seq<string>)
    ensures Init(argv) == Normal(ProgramOf(argv), SwitchesOf(argv), ArgsOf(argv))
    ensures Trim(ProgramOf(argv)) == ProgramOf(argv)
    ensures Settled(ArgsOf(argv))
  {
    if argv != [] {
      ArgumentsSettle(argv[1..]);
      TrimIsTrimmed(argv[0]);
      TrimChangesNothing(Trim(argv[0]));
    }
  }

  lemma InitOfNormal(program: string, switches: seq<Switch>, args: seq<string>)
    ensures var (switches', args') := Parse(RenderAll(switches) + args, true);
      Init(Normal(program, switches, args).argv) == Normal(Trim(program), switches', args')
  {
    hide Trim, Parse, RenderAll, SwitchMap;
    assert ([program] + RenderAll(switches) + args)[1..] == RenderAll(switches) + args;
  }

  lemma NormalDetermines(p1: string, s1: seq<Switch>, a1: seq<string>, p2: string, s2: seq<Switch>, a2: seq<string>)
    requires Normal(p1, s1, a1) == Normal(p2, s2, a2)
    ensures p1 == p2 && RenderAll(s1) == RenderAll(s2) && a1 == a2
  {
    var n := |s1|;
    var one, two := Normal(p1, s1, a1).argv, Normal(p2, s2, a2).argv;
    assert one[0] == p1 && two[0] == p2;
    assert one[1..1 + n] == RenderAll(s1) && two[1..1 + n] == RenderAll(s2);
    assert one[1 + n..] == a1 && two[1 + n..] == a2;
  }

  /**
   A command line built from any switches, prefixed or not, and any arguments: initialising
   from its argv gives the same argv, map and boundary exactly when every switch travels, no
   argument before the terminator looks like a switch, and the program and the arguments
   are trimmed.
   */
  lemma CommandLineTravelsIff(program: string, switches: seq<Switch>, args: seq<string>)
    ensures var s := Normal(program, switches, args);
      Init(s.argv) == s <==> Trim(program) == program && Settled(args) && AllTravel(switches)
  {
    var s, strings := Normal(program, switches, args), RenderAll(switches) + args;
    var again := Parse(strings, true);
    InitOfNormal(program, switches, args);
    hide Trim, Init;
    if Trim(program) == program && Settled(args) && AllTravel(switches) {
      TravelParse(switches, args);
      PrefixedMap(switches);
    } else if Init(s.argv) == s {
      NormalDetermines(Trim(program), again.0, again.1, program, switches, args);
      ArgumentsSettle(strings);
      OnlyTravelParse(switches, args);
    }
  }

  lemma ParsedTravelsIff(sw: Switch)
    requires Parsed(sw)
    ensures Travels(sw) <==> sw.value != "" || (Key(sw) != "" && !White(sw.name[|sw.name| - 1]))
  {
    var text := sw.name + "=" + sw.value;
    assert sw.value != "" ==> text[|text| - 1] == sw.value[|sw.value| - 1];
  }

  /**
   Initialising again from the resulting argv gives the same argv, map and boundary, unless a
   switch was written with '=' and nothing after it, and its name ends in white space or is
   nothing but the prefix.
   */
  lemma NormalFormIsStable(argv: seq<string>)
    ensures Init(Init(argv).argv) == Init(argv) <==>
      forall i :: 0 <= i < |SwitchesOf(argv)| ==>
        var sw := SwitchesOf(argv)[i]; sw.value != "" || (Key(sw) != "" && !White(sw.name[|sw.name| - 1]))
  {
    var switches := SwitchesOf(argv);
    InitIsNormal(argv);
    CommandLineTravelsIff(ProgramOf(argv), switches, ArgsOf(argv));
    if argv != [] {
      SwitchesAreParsed(argv[1..], true);
    }
    hide Init, Parsed, Travels, Parse, Normal;
    forall i | 0 <= i < |switches|
      ensures Travels(switches[i]) <==> switches[i].value != "" || (Key(switches[i]) != "" && !White(switches[i].name[|switches[i].name| - 1]))
    {
      ParsedTravelsIff(switches[i]);
    }
  }

  /** In particular when switch names hold no white space and are more than a prefix. */
  lemma OrdinarySwitchesAreStable(argv: seq<string>)
    requires forall i :: 0 <= i < |SwitchesOf(argv)| ==>
      Key(SwitchesOf(argv)[i]) != "" && forall c :: c in SwitchesOf(argv)[i].name ==> !White(c)
    ensures Init(Init(argv).argv) == Init(argv)
  {
    NormalFormIsStable(argv);
  }

  /** "--=" is met as a switch, written back as "--", and read again as the terminator. */
  lemma EmptySwitchIsNotStable()
    ensures Init(["prog", "--="]) == State(["prog", "--"], map["" := ""], 2)
    ensures Init(["prog", "--"]) == State(["prog", "--"], map[], 1)
  {
    assert ["prog", "--="][1..] == ["--="] && ["prog", "--"][1..] == ["--"];
    TrimChangesNothing("prog");
    TrimChangesNothing("--=");
    TrimChangesNothing("--");
    FindEqualsIs("--=", 2);
    assert "--="[..2] == "--" && "--="[3..] == "";
    assert AsSwitch("--=") == Some(Switch("--", ""));
    ParseCons("--=", []);
    ParseCons("--", []);
    assert ["--="] + [] == ["--="] && ["--"] + [] == ["--"];
    assert "--" + "" == "--" && Rendered(Switch("--", "")) == "--";
    assert RenderAll([Switch("--", "")]) == ["--"];
    assert SwitchMap([Switch("--", "")]) == map["" := ""];
  }

  /** In particular with a name without white space that is more than a prefix, and a trimmed value. */
  lemma OrdinarySwitchTravels(name: string, value: string)
    requires Key(Switch(name, value)) != "" && Trimmed(value)
    requires '=' !in name && forall c :: c in name ==> !White(c)
    ensures Travels(Switch(name, value))
  {
    assert name[|name| - 1] in name;
  }

  /** Two command lines in the same state were given the same answers to give. */
  lemma SameAnswers(c: CommandLine, program: string, switches: seq<Switch>, args: seq<string>, key: string)
    requires Holds(c, program, switches, args)
    ensures c.args == args && (Has(c.met, key) <==> Has(switches, key))
    ensures forall value :: Gives(c.met, key, value) <==> Gives(switches, key, value)
  {
    NormalDetermines(c.program, c.met, c.args, program, switches, args);
    SwitchMapHoldsLast(c.met, key);
    SwitchMapHoldsLast(switches, key);
    hide Has, Gives, Key, SwitchMap, RenderAll;
    forall value ensures Gives(c.met, key, value) <==> Gives(switches, key, value) {
      GivesFromMap(c.met, key, value);
      GivesFromMap(switches, key, value);
    }
  }

  /**
   A process appends switches to its command line and starts another with the argv that
   comes of it: the other process finds every switch, with the last value given for its key,
   no others, and the same arguments.
   */
  method PassOn(from: seq<string>, appended: seq<Switch>, key: string) returns (found: bool, value: string, args: seq<string>)
    requires AllTravel(SwitchesOf(from)) && AllTravel(appended)
    ensures found <==> Has(SwitchesOf(from) + appended, key)
    ensures Gives(SwitchesOf(from) + appended, key, value)
    ensures args == WithoutFirst(ArgsOf(from), TERMINATOR)
  {
    hide Travels, Has, Gives, Init, Settled, Trim;
    var parent := Extended(from, appended);
    InitIsNormal(from);
    CommandLineTravelsIff(ProgramOf(from), SwitchesOf(from) + appended, ArgsOf(from));
    var child := new CommandLine(parent.argv);
    SameAnswers(child, ProgramOf(from), SwitchesOf(from) + appended, ArgsOf(from), key);
    found := child.HasSwitch(key);
    value := child.GetSwitchValueNative(key);
    args := child.GetArgs();
  }

  /** Valid, with this program, these switches and these arguments. */
  ghost predicate Holds(c: CommandLine, program: string, switches: seq<Switch>, args: seq<string>)
    reads c
  {
    c.Valid() && State(c.argv, c.switches, c.beginArgs) == Normal(program, switches, args)
  }

  method Started(from: seq<string>) returns (c: CommandLine)
    ensures fresh(c) && Holds(c, ProgramOf(from), SwitchesOf(from), ArgsOf(from))
  {
    InitIsNormal(from);
    hide Init, Normal;
    c := new CommandLine(from);
  }

  lemma TakeOne(met: seq<Switch>, appended: seq<Switch>, i: nat)
    requires i < |appended|
    ensures met + appended[..i] + [appended[i]] == met + appended[..i + 1]
  {
  }

  /** The parent's state once the switches have been appended. */
  method Extended(from: seq<string>, appended: seq<Switch>) returns (c: CommandLine)
    ensures Holds(c, ProgramOf(from), SwitchesOf(from) + appended, ArgsOf(from))
  {
    hide *;
    ghost var program, met, args := ProgramOf(from), SwitchesOf(from), ArgsOf(from);
    c := Started(from);
    ghost var switches := met;
    var i := 0;
    Empty(met);
    assert appended[..0] == [];
    while i < |appended|
      invariant i <= |appended| && fresh(c) && switches == met + appended[..i]
      invariant Holds(c, program, switches, args)
    {
      AppendTo(c, program, switches, args, appended[i]);
      TakeOne(met, appended, i);
      switches := switches + [appended[i]];
      i := i + 1;
    }
    assert appended[..i] == appended;
  }

  method AppendTo(c: CommandLine, ghost program: string, ghost switches: seq<Switch>, ghost args: seq<string>, sw: Switch)
    requires Holds(c, program, switches, args)
    modifies c
    ensures Holds(c, program, switches + [sw], args)
  {
    NormalAppend(program, switches, args, sw);
    hide Normal, Rendered, Key, CommandLine.Valid;
    c.AppendSwitchNative(sw.name, sw.value);
  }
}
