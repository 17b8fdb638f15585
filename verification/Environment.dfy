/**
 base/environment.cc: AlterEnvironment for POSIX, and ParseEnvLine.

 A line is a C string, written here without its terminator.  Changes are the entries of a
 std::map in the map's order.
 */
module Environment {
  import opened Sequences
  import opened Wrappers

  const NUL: char := '\0'
  const POINTER_SIZE: nat := 8

  datatype Change = Change(key: string, value: string)

  predicate IsCString(s: string) {
    NUL !in s
  }

  predicate AllCStrings(lines: seq<string>) {
    forall i :: 0 <= i < |lines| ==> IsCString(lines[i])
  }

  predicate Writable(changes: seq<Change>) {
    forall i :: 0 <= i < |changes| ==> IsCString(changes[i].key) && IsCString(changes[i].value)
  }

  /** A std::map has one entry for a key. */
  ghost predicate IsMap(changes: seq<Change>) {
    forall i, j :: 0 <= i < j < |changes| ==> changes[i].key != changes[j].key
  }

  // ----- what the block says -----

  /** The part of a line before the first equals sign, all of it when there is none. */
  function KeyOf(line: string): (key: string)
    ensures |key| <= |line| && key == line[..|key|] && '=' !in key
    ensures |key| < |line| ==> line[|key|] == '='
  {
    if line == "" || line[0] == '=' then "" else [line[0]] + KeyOf(line[1..])
  }

  predicate HasKey(changes: seq<Change>, key: string) {
    exists i :: 0 <= i < |changes| && changes[i].key == key
  }

  /** The lines no change is about. */
  function Kept(env: seq<string>, changes: seq<Change>): seq<string> {
    if env == [] then []
    else (if HasKey(changes, KeyOf(env[0])) then [] else [env[0]]) + Kept(env[1..], changes)
  }

  function LineOf(c: Change): string {
    c.key + "=" + c.value
  }

  /** An empty value means removal. */
  function Added(changes: seq<Change>): seq<string> {
    if changes == [] then []
    else (if changes[0].value == "" then [] else [LineOf(changes[0])]) + Added(changes[1..])
  }

  function Altered(env: seq<string>, changes: seq<Change>): seq<string> {
    Kept(env, changes) + Added(changes)
  }

  /** getenv: the value on the first line that sets the variable. */
  function Lookup(env: seq<string>, name: string): Option<string> {
    if env == [] then None
    else if |name| < |env[0]| && env[0][..|name|] == name && env[0][|name|] == '=' then Some(env[0][|name| + 1..])
    else Lookup(env[1..], name)
  }

  function Wanted(changes: seq<Change>, name: string): Option<string> {
    if changes == [] then None
    else if changes[0].key == name then Some(changes[0].value)
    else Wanted(changes[1..], name)
  }

  // ----- properties of the altered environment -----

  lemma {:induction false} KeptTwice(env: seq<string>, changes: seq<Change>)
    ensures Kept(Kept(env, changes), changes) == Kept(env, changes)
  {
    if env != [] {
      KeptTwice(env[1..], changes);
      var rest := Kept(env[1..], changes);
      assert ([env[0]] + rest)[1..] == rest && [] + rest == rest;
    }
  }

  lemma {:induction false} KeptConcat(a: seq<string>, b: seq<string>, changes: seq<Change>)
    ensures Kept(a + b, changes) == Kept(a, changes) + Kept(b, changes)
  {
    if a == [] {
      assert a + b == b;
    } else {
      KeptConcat(a[1..], b, changes);
      assert (a + b)[1..] == a[1..] + b;
      var first := if HasKey(changes, KeyOf(a[0])) then [] else [a[0]];
      assert Kept(a + b, changes) == first + Kept((a + b)[1..], changes);
      hide *;
      Regroup(first, Kept(a[1..], changes), Kept(b, changes));
    }
  }

  lemma {:induction false} KeyOfAdded(key: string, rest: string)
    ensures KeyOf(key + "=" + rest) == KeyOf(key)
  {
    var line := key + "=" + rest;
    if key != "" && key[0] != '=' {
      KeyOfAdded(key[1..], rest);
      assert line[1..] == key[1..] + "=" + rest;
    }
  }

  lemma {:induction false} KeyOfPlain(key: string)
    requires '=' !in key
    ensures KeyOf(key) == key
  {
    if key != "" {
      KeyOfPlain(key[1..]);
    }
  }

  /** A second application would take out every line the first one added. */
  ghost predicate TakesOutAdded(some: seq<Change>, changes: seq<Change>) {
    forall i :: 0 <= i < |some| && some[i].value != "" ==> HasKey(changes, KeyOf(some[i].key))
  }

  lemma {:induction false} KeptOfAdded(some: seq<Change>, changes: seq<Change>)
    ensures Kept(Added(some), changes) == [] <==> TakesOutAdded(some, changes)
  {
    if some != [] {
      KeptOfAdded(some[1..], changes);
      var first := if some[0].value == "" then [] else [LineOf(some[0])];
      KeptConcat(first, Added(some[1..]), changes);
      KeyOfAdded(some[0].key, some[0].value);
      assert Kept(first, changes) == if some[0].value == "" || HasKey(changes, KeyOf(some[0].key)) then [] else first;
      hide Kept, KeyOf, HasKey, LineOf, TakesOutAdded;
      TakesOutFirst(some, changes);
    }
  }

  lemma TakesOutFirst(some: seq<Change>, changes: seq<Change>)
    requires some != []
    ensures TakesOutAdded(some, changes) <==>
      (some[0].value == "" || HasKey(changes, KeyOf(some[0].key))) && TakesOutAdded(some[1..], changes)
  {
    hide KeyOf, HasKey;
    assert forall i :: 0 < i < |some| ==> some[i] == some[1..][i - 1];
  }

  /** Applying the same changes again changes nothing exactly when each key set is, up to an equals sign in it, a key changed. */
  lemma AlteringTwice(env: seq<string>, changes: seq<Change>)
    ensures Altered(Altered(env, changes), changes) == Altered(env, changes) <==> TakesOutAdded(changes, changes)
  {
    var kept, added := Kept(env, changes), Added(changes);
    KeptConcat(kept, added, changes);
    KeptTwice(env, changes);
    KeptOfAdded(changes, changes);
    var again := Kept(added, changes);
    assert Altered(kept + added, changes) == kept + again + added;
    if again == [] {
      assert kept + [] == kept;
    } else {
      assert |kept + again + added| != |kept + added|;
    }
  }

  ghost predicate PlainKeys(changes: seq<Change>) {
    forall i :: 0 <= i < |changes| ==> '=' !in changes[i].key
  }

  lemma PlainChangesAreIdempotent(env: seq<string>, changes: seq<Change>)
    requires PlainKeys(changes)
    ensures Altered(Altered(env, changes), changes) == Altered(env, changes)
  {
    forall i | 0 <= i < |changes| ensures KeyOf(changes[i].key) == changes[i].key {
      KeyOfPlain(changes[i].key);
    }
    AlteringTwice(env, changes);
  }

  /** An equals sign in a key can leave a line behind that later applications do not recognise. */
  lemma EqualsInKeyAccumulates()
    ensures var changes := [Change("A=B", "1")];
      Altered([], changes) == ["A=B=1"] && Altered(Altered([], changes), changes) == ["A=B=1", "A=B=1"]
  {
    var changes := [Change("A=B", "1")];
    assert KeyOf("A=B=1") == "A" by {
      KeyOfAdded("A", "B=1");
      KeyOfPlain("A");
      assert "A" + "=" + "B=1" == "A=B=1";
    }
    assert LineOf(changes[0]) == "A=B=1";
    assert Added(changes) == ["A=B=1"];
    assert changes[0].key != "A";
    assert Kept(["A=B=1"], changes) == ["A=B=1"];
  }

  predicate Sets(line: string, name: string) {
    |name| < |line| && line[..|name|] == name && line[|name|] == '='
  }

  lemma SetsItsKey(line: string, name: string)
    requires '=' !in name
    ensures Sets(line, name) <==> KeyOf(line) == name && |name| < |line|
  {
    var key := KeyOf(line);
    assert forall i :: 0 <= i < |key| ==> key[i] in key && key[i] == line[i];
    assert forall i :: 0 <= i < |name| ==> name[i] in name;
    if Sets(line, name) {
      assert forall i :: 0 <= i < |name| ==> line[i] == name[i];
    }
  }

  lemma {:induction false} LookupConcat(a: seq<string>, b: seq<string>, name: string)
    ensures Lookup(a + b, name) == if Lookup(a, name).Some? then Lookup(a, name) else Lookup(b, name)
  {
    if a == [] {
      assert a + b == b;
    } else {
      LookupConcat(a[1..], b, name);
      assert (a + b)[1..] == a[1..] + b;
    }
  }

  lemma {:induction false} LookupKept(env: seq<string>, changes: seq<Change>, name: string)
    requires '=' !in name
    ensures Lookup(Kept(env, changes), name) == if HasKey(changes, name) then None else Lookup(env, name)
  {
    if env != [] {
      LookupKept(env[1..], changes, name);
      SetsItsKey(env[0], name);
      var rest := Kept(env[1..], changes);
      assert ([env[0]] + rest)[1..] == rest && [] + rest == rest;
    }
  }

  lemma {:induction false} LookupAdded(changes: seq<Change>, name: string)
    requires '=' !in name && IsMap(changes) && PlainKeys(changes)
    ensures Wanted(changes, name).Some? <==> HasKey(changes, name)
    ensures Lookup(Added(changes), name) == if Wanted(changes, name) == Some("") then None else Wanted(changes, name)
  {
    if changes != [] {
      LookupAdded(changes[1..], name);
      var line, rest := LineOf(changes[0]), Added(changes[1..]);
      KeyOfAdded(changes[0].key, changes[0].value);
      KeyOfPlain(changes[0].key);
      SetsItsKey(line, name);
      assert ([line] + rest)[1..] == rest && [] + rest == rest;
      assert line[|changes[0].key| + 1..] == changes[0].value;
      assert HasKey(changes, name) <==> changes[0].key == name || HasKey(changes[1..], name) by {
        assert changes == [changes[0]] + changes[1..];
      }
    }
  }

  /** A variable has the value a change gives it, none if the change is empty, and otherwise the value it had. */
  lemma ChangesTakeEffect(env: seq<string>, changes: seq<Change>, name: string)
    requires '=' !in name && IsMap(changes) && PlainKeys(changes)
    ensures Lookup(Altered(env, changes), name) ==
      match Wanted(changes, name)
      case None => Lookup(env, name)
      case Some(value) => if value == "" then None else Some(value)
  {
    LookupConcat(Kept(env, changes), Added(changes), name);
    LookupKept(env, changes, name);
    LookupAdded(changes, name);
  }

  // ----- the block in memory -----

  /** The C string that starts here. */
  function ReadCString(storage: seq<char>, at: nat): string
    decreases |storage| - at
  {
    if at >= |storage| || storage[at] == NUL then "" else [storage[at]] + ReadCString(storage, at + 1)
  }

  /** The line lies in the storage, followed by its terminator. */
  predicate HoldsAt(storage: seq<char>, at: nat, line: string) {
    at + |line| < |storage| && storage[at..at + |line|] == line && storage[at + |line|] == NUL
  }

  lemma {:induction false} ReadHeld(storage: seq<char>, at: nat, line: string)
    requires HoldsAt(storage, at, line) && IsCString(line)
    ensures ReadCString(storage, at) == line
    decreases |line|
  {
    if line != "" {
      assert storage[at] == storage[at..at + |line|][0];
      assert storage[at + 1..at + |line|] == storage[at..at + |line|][1..];
      ReadHeld(storage, at + 1, line[1..]);
    }
  }

  /** The indices are those of the lines, in order. */
  predicate Holds(storage: seq<char>, indices: seq<nat>, lines: seq<string>) {
    |indices| == |lines| && forall i :: 0 <= i < |lines| ==> HoldsAt(storage, indices[i], lines[i])
  }

  lemma HoldsMore(storage: seq<char>, indices: seq<nat>, lines: seq<string>, line: string)
    requires Holds(storage, indices, lines)
    ensures Holds(storage + line + [NUL], indices + [|storage|], lines + [line])
  {
    var after := storage + line + [NUL];
    assert after[|storage|..|storage| + |line|] == line;
    forall i | 0 <= i < |lines| ensures HoldsAt(after, indices[i], lines[i]) {
      assert after[indices[i]..indices[i] + |lines[i]|] == storage[indices[i]..indices[i] + |lines[i]|];
    }
  }

  /** What a reader of the block finds: strings up to the null pointer; addresses count from the allocation's start. */
  function Decode(pointers: seq<Option<nat>>, base: nat, storage: seq<char>): seq<string> {
    if pointers == [] || pointers[0].None? || pointers[0].value < base then []
    else [ReadCString(storage, pointers[0].value - base)] + Decode(pointers[1..], base, storage)
  }

  function Pointers(indices: seq<nat>, base: nat): (p: seq<Option<nat>>)
    ensures |p| == |indices|
  {
    seq(|indices|, i requires 0 <= i < |indices| => Some(base + indices[i]))
  }

  lemma PointersTail(indices: seq<nat>, base: nat)
    requires indices != []
    ensures var p := Pointers(indices, base) + [None];
      p[0] == Some(base + indices[0]) && p[1..] == Pointers(indices[1..], base) + [None]
  {
  }

  lemma {:induction false} DecodeHeld(indices: seq<nat>, base: nat, storage: seq<char>, lines: seq<string>)
    requires Holds(storage, indices, lines) && AllCStrings(lines)
    ensures Decode(Pointers(indices, base) + [None], base, storage) == lines
    decreases |lines|
  {
    if lines != [] {
      ReadHeld(storage, indices[0], lines[0]);
      hide ReadCString, HoldsAt, IsCString;
      DecodeHeld(indices[1..], base, storage, lines[1..]);
      PointersTail(indices, base);
      hide Pointers, Holds;
      assert lines == [lines[0]] + lines[1..];
    }
  }

  lemma {:induction false} AlteredAreCStrings(env: seq<string>, changes: seq<Change>)
    requires AllCStrings(env) && Writable(changes)
    ensures AllCStrings(Kept(env, changes)) && AllCStrings(Added(changes)) && AllCStrings(Altered(env, changes))
    decreases |env| + |changes|
  {
    if env != [] {
      AlteredAreCStrings(env[1..], changes);
    } else if changes != [] {
      AlteredAreCStrings(env, changes[1..]);
      KeptNone(changes);
    }
  }

  lemma KeptNone(changes: seq<Change>)
    ensures Kept([], changes) == []
  {
  }

  lemma KeyGoesOn(line: string, cur: nat)
    requires cur <= |line|
    ensures cur < |line| && line[cur] != '=' ==>
      line[..cur] + KeyOf(line[cur..]) == line[..cur + 1] + KeyOf(line[cur + 1..])
    ensures cur == |line| || line[cur] == '=' ==> line[..cur] + KeyOf(line[cur..]) == line[..cur]
  {
    if cur < |line| && line[cur] != '=' {
      assert KeyOf(line[cur..]) == [line[cur]] + KeyOf(line[cur..][1..]);
      assert line[cur..][1..] == line[cur + 1..];
      hide KeyOf;
      assert line[..cur] + [line[cur]] == line[..cur + 1];
      Regroup(line[..cur], [line[cur]], KeyOf(line[cur + 1..]));
    } else {
      assert KeyOf(line[cur..]) == "";
    }
  }

  /** The key, and the length with the terminator. */
  method ParseEnvLine(input: seq<char>, ghost line: string) returns (key: string, length: nat)
    requires input == line + [NUL] && IsCString(line)
    ensures key == KeyOf(line) && length == |line| + 1
  {
    assert forall i :: 0 <= i < |line| ==> line[i] in line && input[i] == line[i];
    hide KeyOf, IsCString;
    var cur := 0;
    assert line[..0] + KeyOf(line[0..]) == KeyOf(line) by {
      assert line[0..] == line;
    }
    while input[cur] != NUL && input[cur] != '='
      invariant cur <= |line| && line[..cur] + KeyOf(line[cur..]) == KeyOf(line)
      decreases |line| - cur
    {
      KeyGoesOn(line, cur);
      cur := cur + 1;
    }
    KeyGoesOn(line, cur);
    key := input[..cur];
    while input[cur] != NUL
      invariant cur <= |line|
      decreases |line| - cur
    {
      cur := cur + 1;
    }
    length := cur + 1;
  }

  /** The kept lines go into value_storage, their indices into result_indices. */
  method StoreKept(env: seq<string>, changes: seq<Change>) returns (storage: seq<char>, indices: seq<nat>)
    requires AllCStrings(env)
    ensures Holds(storage, indices, Kept(env, changes))
  {
    storage, indices := [], [];
    ghost var lines: seq<string> := [];
    assert env[0..] == env;
    for i := 0 to |env|
      invariant Holds(storage, indices, lines) && lines + Kept(env[i..], changes) == Kept(env, changes)
    {
      assert env[i..][1..] == env[i + 1..];
      assert Kept(env[i..], changes) == (if HasKey(changes, KeyOf(env[i])) then [] else [env[i]]) + Kept(env[i + 1..], changes);
      var input := env[i] + [NUL];
      hide *;
      var key, lineLength := ParseEnvLine(input, env[i]);
      if HasKey(changes, key) {
        assert [] + Kept(env[i + 1..], changes) == Kept(env[i + 1..], changes);
      } else {
        assert storage + input[..lineLength] == storage + env[i] + [NUL];
        HoldsMore(storage, indices, lines, env[i]);
        indices := indices + [|storage|];
        storage := storage + input[..lineLength];
        Regroup(lines, [env[i]], Kept(env[i + 1..], changes));
        lines := lines + [env[i]];
      }
    }
    assert lines + [] == lines;
  }

  /** The changes that set something follow. */
  method StoreAdded(kept: seq<char>, keptIndices: seq<nat>, ghost lines: seq<string>, changes: seq<Change>)
    returns (storage: seq<char>, indices: seq<nat>)
    requires Holds(kept, keptIndices, lines)
    ensures Holds(storage, indices, lines + Added(changes))
  {
    storage, indices := kept, keptIndices;
    ghost var done: seq<string> := lines;
    assert changes[0..] == changes;
    for i := 0 to |changes|
      invariant Holds(storage, indices, done) && done + Added(changes[i..]) == lines + Added(changes)
    {
      assert changes[i..][1..] == changes[i + 1..];
      assert Added(changes[i..]) == (if changes[i].value == "" then [] else [LineOf(changes[i])]) + Added(changes[i + 1..]);
      var line := LineOf(changes[i]);
      hide *;
      if changes[i].value == "" {
        assert [] + Added(changes[i + 1..]) == Added(changes[i + 1..]);
      } else {
        HoldsMore(storage, indices, done, line);
        indices := indices + [|storage|];
        storage := storage + line + [NUL];
        Regroup(done, [line], Added(changes[i + 1..]));
        done := done + [line];
      }
    }
    assert done + [] == done;
  }

  method FillPointers(indices: seq<nat>, base: nat) returns (pointers: array<Option<nat>>)
    ensures pointers[..] == Pointers(indices, base) + [None]
  {
    pointers := new Option<nat>[|indices| + 1](_ => None);
    for i := 0 to |indices|
      invariant forall k :: 0 <= k < i ==> pointers[k] == Some(base + indices[k])
    {
      pointers[i] := Some(base + indices[i]);
    }
    pointers[|indices|] := None;
  }

  /** The block's pointers lead to these lines, one each, and end with a null pointer. */
  predicate LeadTo(pointers: seq<Option<nat>>, base: nat, storage: seq<char>, lines: seq<string>) {
    && |pointers| == |lines| + 1 && pointers[|lines|] == None
    && forall i :: 0 <= i < |lines| ==>
         pointers[i].Some? && pointers[i].value >= base && HoldsAt(storage, pointers[i].value - base, lines[i])
  }

  /**
   One allocation of `words` pointers' size: the array of pointers, null-terminated, and
   after it the storage they point into.
   */
  method AlterEnvironment(env: seq<string>, changes: seq<Change>)
    returns (words: nat, pointers: array<Option<nat>>, storage: array<char>)
    requires AllCStrings(env) && Writable(changes)
    ensures var base := POINTER_SIZE * pointers.Length;
      && Decode(pointers[..], base, storage[..]) == Altered(env, changes)
      && LeadTo(pointers[..], base, storage[..], Altered(env, changes))
      && base + storage.Length <= POINTER_SIZE * words < base + storage.Length + POINTER_SIZE
  {
    hide HoldsAt, Kept, Added, Decode, AllCStrings, HasKey, Writable;
    var valueStorage, indices := StoreKept(env, changes);
    valueStorage, indices := StoreAdded(valueStorage, indices, Kept(env, changes), changes);
    words := |indices| + 1 + (|valueStorage| + POINTER_SIZE - 1) / POINTER_SIZE;
    var base := POINTER_SIZE * (|indices| + 1);
    storage := new char[|valueStorage|](i requires 0 <= i < |valueStorage| => valueStorage[i]);
    assert storage[..] == valueStorage;
    pointers := FillPointers(indices, base);
    AlteredAreCStrings(env, changes);
    DecodeHeld(indices, base, valueStorage, Altered(env, changes));
  }
}
