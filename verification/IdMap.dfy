/**
 base/id_map.h: a table of pointers by id whose entries may be removed by the code that is
 iterating over it.

 The hash table is the sequence of its entries in the order an iterator meets them; where a
 new entry lands in that order is the caller's guess, `slot`.  What iterators visit is
 stated for the times when nothing is added, so that the order stays put.  `deleted` lists
 the pointers `delete` was applied to.
 */
module IdMap {
  import opened Sequences
  import opened Wrappers

  /** An address; what is there is not looked at. */
  type Pointer = nat

  const MAX_KEY: int := 0x7fff_ffff

  datatype Entry = Entry(key: int, value: Pointer)

  datatype Map = Map(data: seq<Entry>, removedIds: seq<int>, iterationDepth: nat, nextId: int, deleted: seq<Pointer>)

  function Find(data: seq<Entry>, id: int): (i: nat)
    ensures i <= |data|
    ensures i < |data| ==> data[i].key == id
    ensures forall p :: 0 <= p < i ==> data[p].key != id
  {
    if data == [] || data[0].key == id then 0
    else
      var rest := Find(data[1..], id);
      assert forall p :: 0 < p < rest + 1 ==> data[p] == data[1..][p - 1];
      1 + rest
  }

  predicate Has(data: seq<Entry>, id: int) {
    Find(data, id) < |data|
  }

  function Inserted(data: seq<Entry>, slot: nat, e: Entry): seq<Entry>
    requires slot <= |data|
  {
    data[..slot] + [e] + data[slot..]
  }

  function Erased(data: seq<Entry>, id: int): seq<Entry> {
    var i := Find(data, id);
    if i == |data| then data else data[..i] + data[i + 1..]
  }

  function Values(data: seq<Entry>): (values: seq<Pointer>)
    ensures |values| == |data|
    ensures forall i :: 0 <= i < |data| ==> values[i] == data[i].value
  {
    seq(|data|, i requires 0 <= i < |data| => data[i].value)
  }

  /** std::set<KeyType>::insert. */
  function Marked(ids: seq<int>, id: int): seq<int> {
    if ids == [] || id < ids[0] then [id] + ids
    else if id == ids[0] then ids
    else [ids[0]] + Marked(ids[1..], id)
  }

  function AllMarked(ids: seq<int>, data: seq<Entry>): seq<int>
    decreases |data|
  {
    if data == [] then ids else AllMarked(Marked(ids, data[0].key), data[1..])
  }

  /** The entries that are not marked for removal. */
  function Unmarked(data: seq<Entry>, ids: seq<int>): seq<Entry> {
    if data == [] then []
    else (if data[0].key in ids then [] else [data[0]]) + Unmarked(data[1..], ids)
  }

  ghost predicate Distinct(data: seq<Entry>) {
    forall i, j :: 0 <= i < j < |data| ==> data[i].key != data[j].key
  }

  ghost predicate Ascending(ids: seq<int>) {
    forall i, j :: 0 <= i < j < |ids| ==> ids[i] < ids[j]
  }

  ghost predicate AllHad(data: seq<Entry>, ids: seq<int>) {
    forall i :: 0 <= i < |ids| ==> Has(data, ids[i])
  }

  /** Pending ids are keys of the table, and there are none when no iterator is live. */
  ghost predicate Sound(m: Map) {
    && Distinct(m.data) && Ascending(m.removedIds)
    && AllHad(m.data, m.removedIds)
    && (m.iterationDepth == 0 ==> m.removedIds == [])
  }

  // ----- the operations -----

  datatype Operation =
    | Add(data: Pointer, slot: nat)
    | AddWithID(data: Pointer, id: int, slot: nat)
    | Remove(id: int)
    | Replace(id: int, newData: Pointer)
    | Clear
    | Begin
    | End

  /** What the map demands of its callers. */
  predicate Allowed(m: Map, op: Operation) {
    match op
    case Add(_, slot) => slot <= |m.data| && m.nextId < MAX_KEY && !Has(m.data, m.nextId)
    case AddWithID(_, id, slot) => slot <= |m.data| && !Has(m.data, id)
    case End => m.iterationDepth > 0
    case _ => true
  }

  predicate Adds(op: Operation) {
    op.Add? || op.AddWithID?
  }

  /** Releaser::release and data_.erase for one id. */
  function Released(m: Map, owned: bool, id: int): Map {
    var i := Find(m.data, id);
    if i == |m.data| then m
    else m.(data := Erased(m.data, id), deleted := if owned then m.deleted + [m.data[i].value] else m.deleted)
  }

  function ReleasedInTurn(m: Map, owned: bool, ids: seq<int>): (after: Map)
    ensures after.iterationDepth == m.iterationDepth
    decreases |ids|
  {
    if ids == [] then m else ReleasedInTurn(Released(m, owned, ids[0]), owned, ids[1..])
  }

  function Compacted(m: Map, owned: bool): Map {
    ReleasedInTurn(m, owned, m.removedIds).(removedIds := [])
  }

  function Step(m: Map, owned: bool, op: Operation): Map
    requires Allowed(m, op)
  {
    match op
    case Add(data, slot) => m.(data := Inserted(m.data, slot, Entry(m.nextId, data)), nextId := m.nextId + 1)
    case AddWithID(data, id, slot) => m.(data := Inserted(m.data, slot, Entry(id, data)))
    case Remove(id) =>
      if !Has(m.data, id) then m
      else if m.iterationDepth == 0 then Released(m, owned, id)
      else m.(removedIds := Marked(m.removedIds, id))
    case Replace(id, newData) =>
      var i := Find(m.data, id);
      if i == |m.data| then m else m.(data := m.data[i := Entry(id, newData)])
    case Clear =>
      if m.iterationDepth > 0 then m.(removedIds := AllMarked(m.removedIds, m.data))
      else if owned then m.(data := [], deleted := m.deleted + Values(m.data))
      else m
    case Begin => m.(iterationDepth := m.iterationDepth + 1)
    case End =>
      var after := m.(iterationDepth := m.iterationDepth - 1);
      if after.iterationDepth == 0 then Compacted(after, owned) else after
  }

  /** SkipRemovedEntries: an iterator stops at the first entry that is not marked, or at the end. */
  function SkipRemoved(m: Map, at: nat): (stop: nat)
    requires at <= |m.data|
    ensures at <= stop <= |m.data|
    ensures stop < |m.data| ==> m.data[stop].key !in m.removedIds
    ensures forall p :: at <= p < stop ==> m.data[p].key in m.removedIds
    decreases |m.data| - at
  {
    if at < |m.data| && m.data[at].key in m.removedIds then SkipRemoved(m, at + 1) else at
  }

  // ----- marking -----

  lemma {:induction false} MarkedHas(ids: seq<int>, id: int)
    requires Ascending(ids)
    ensures Ascending(Marked(ids, id))
    ensures forall k :: k in Marked(ids, id) <==> k in ids || k == id
  {
    if ids != [] && id > ids[0] {
      MarkedHas(ids[1..], id);
      var rest := Marked(ids[1..], id);
      assert forall i :: 0 <= i < |rest| ==> rest[i] in rest;
      assert ids == [ids[0]] + ids[1..];
    }
  }

  lemma {:induction false} AllMarkedHas(ids: seq<int>, data: seq<Entry>)
    requires Ascending(ids)
    ensures Ascending(AllMarked(ids, data))
    ensures forall k :: k in AllMarked(ids, data) <==> k in ids || Has(data, k)
    decreases |data|
  {
    if data != [] {
      MarkedHas(ids, data[0].key);
      AllMarkedHas(Marked(ids, data[0].key), data[1..]);
    }
  }

  lemma HasIff(data: seq<Entry>, id: int)
    ensures Has(data, id) <==> exists i :: 0 <= i < |data| && data[i].key == id
  {
  }

  // ----- erasing in turn is filtering -----

  lemma ErasedTail(data: seq<Entry>, id: int)
    requires data != []
    ensures Erased(data, id) == if data[0].key == id then data[1..] else [data[0]] + Erased(data[1..], id)
  {
    var i := Find(data, id);
    if i == |data| || i == 0 {
    } else {
      assert i == 1 + Find(data[1..], id);
      CutTail(data, i);
    }
  }

  lemma CutTail(data: seq<Entry>, i: nat)
    requires 1 <= i < |data|
    ensures data[..i] + data[i + 1..] == [data[0]] + (data[1..][..i - 1] + data[1..][i..])
  {
    assert data[1..][i..] == data[i + 1..];
  }

  lemma {:induction false} UnmarkedOthers(data: seq<Entry>, id: int, ids: seq<int>)
    requires !Has(data, id)
    ensures Unmarked(data, [id] + ids) == Unmarked(data, ids)
  {
    if data != [] {
      UnmarkedOthers(data[1..], id, ids);
    }
  }

  lemma {:induction false} ErasedIsUnmarked(data: seq<Entry>, id: int, ids: seq<int>)
    requires Distinct(data)
    ensures Unmarked(Erased(data, id), ids) == Unmarked(data, [id] + ids)
  {
    if data != [] {
      ErasedTail(data, id);
      if data[0].key == id {
        UnmarkedOthers(data[1..], id, ids);
      } else {
        ErasedIsUnmarked(data[1..], id, ids);
      }
    }
  }

  lemma ErasedHas(data: seq<Entry>, id: int)
    requires Distinct(data)
    ensures Distinct(Erased(data, id))
    ensures forall k :: Has(Erased(data, id), k) <==> Has(data, k) && k != id
  {
    var i, after := Find(data, id), Erased(data, id);
    if i < |data| {
      assert forall p :: 0 <= p < |after| ==> after[p] == data[if p < i then p else p + 1];
      forall k ensures Has(after, k) <==> Has(data, k) && k != id {
        var p := Find(data, k);
        if p < |data| && p != i {
          assert after[if p < i then p else p - 1].key == k;
        }
      }
    }
  }

  lemma {:induction false} UnmarkedNone(data: seq<Entry>)
    ensures Unmarked(data, []) == data
  {
    if data != [] {
      UnmarkedNone(data[1..]);
    }
  }

  /** The pointers of the entries with these ids, in the order of the ids. */
  ghost function ValuesOf(data: seq<Entry>, ids: seq<int>): seq<Pointer>
    requires AllHad(data, ids)
  {
    if ids == [] then [] else [ValueAt(data, ids[0])] + ValuesOf(data, ids[1..])
  }

  function ValueAt(data: seq<Entry>, id: int): Pointer
    requires Has(data, id)
  {
    data[Find(data, id)].value
  }

  lemma ValueCons(e: Entry, data: seq<Entry>, k: int)
    requires e.key == k || Has(data, k)
    ensures Has([e] + data, k) && ValueAt([e] + data, k) == if e.key == k then e.value else ValueAt(data, k)
  {
    assert ([e] + data)[1..] == data;
  }

  lemma HasTail(e: Entry, data: seq<Entry>, k: int)
    requires Has([e] + data, k) && e.key != k
    ensures Has(data, k)
  {
    assert ([e] + data)[1..] == data;
  }

  lemma {:induction false} ValueAfterErase(data: seq<Entry>, id: int, k: int)
    requires Has(data, k) && k != id
    ensures Has(Erased(data, id), k) && ValueAt(Erased(data, id), k) == ValueAt(data, k)
  {
    ErasedTail(data, id);
    var e, rest := data[0], data[1..];
    assert data == [e] + rest;
    hide *;
    if e.key == k {
      ValueCons(e, rest, k);
      ValueCons(e, Erased(rest, id), k);
    } else {
      HasTail(e, rest, k);
      ValueCons(e, rest, k);
      if e.key != id {
        ValueAfterErase(rest, id, k);
        ValueCons(e, Erased(rest, id), k);
      }
    }
  }

  lemma {:induction false} ValuesAfterErase(data: seq<Entry>, id: int, ids: seq<int>)
    requires id !in ids && AllHad(data, ids)
    ensures AllHad(Erased(data, id), ids)
    ensures ValuesOf(Erased(data, id), ids) == ValuesOf(data, ids)
  {
    hide Find, Erased, Has, ValueAt;
    if ids != [] {
      ValueAfterErase(data, id, ids[0]);
      ValuesAfterErase(data, id, ids[1..]);
    }
  }

  /** The end of the outermost iteration leaves the unmarked entries, and deletes each marked one's pointer once. */
  lemma {:induction false} ReleasedInTurnIsUnmarked(m: Map, owned: bool, ids: seq<int>)
    requires Distinct(m.data) && Ascending(ids) && AllHad(m.data, ids)
    ensures ReleasedInTurn(m, owned, ids) ==
      m.(data := Unmarked(m.data, ids), deleted := if owned then m.deleted + ValuesOf(m.data, ids) else m.deleted)
    decreases |ids|
  {
    if ids == [] {
      UnmarkedNone(m.data);
      assert m.deleted + [] == m.deleted;
    } else {
      var after := Released(m, owned, ids[0]);
      hide Find, Erased;
      ErasedHas(m.data, ids[0]);
      ValuesAfterErase(m.data, ids[0], ids[1..]);
      ErasedIsUnmarked(m.data, ids[0], ids[1..]);
      assert [ids[0]] + ids[1..] == ids;
      ReleasedInTurnIsUnmarked(after, owned, ids[1..]);
      hide Unmarked;
      Regroup(m.deleted, [m.data[Find(m.data, ids[0])].value], ValuesOf(m.data, ids[1..]));
    }
  }

  // ----- what every operation keeps -----

  lemma InsertedKeys(data: seq<Entry>, slot: nat, e: Entry)
    requires Distinct(data) && slot <= |data| && !Has(data, e.key)
    ensures Distinct(Inserted(data, slot, e))
  {
    var after := Inserted(data, slot, e);
    forall i, j | 0 <= i < j < |after| ensures after[i].key != after[j].key {
      assert i != slot ==> after[i] == data[if i < slot then i else i - 1];
      assert j != slot ==> after[j] == data[if j < slot then j else j - 1];
    }
  }

  lemma InsertedHas(data: seq<Entry>, slot: nat, e: Entry, ids: seq<int>)
    requires slot <= |data| && AllHad(data, ids)
    ensures AllHad(Inserted(data, slot, e), ids)
  {
    var after := Inserted(data, slot, e);
    forall i | 0 <= i < |ids| ensures Has(after, ids[i]) {
      var p := Find(data, ids[i]);
      assert after[if p < slot then p else p + 1] == data[p];
      HasIff(after, ids[i]);
    }
  }

  lemma ReplacedKeys(data: seq<Entry>, id: int, value: Pointer)
    requires Has(data, id)
    ensures forall k :: Has(data[Find(data, id) := Entry(id, value)], k) <==> Has(data, k)
  {
    var i := Find(data, id);
    var after := data[i := Entry(id, value)];
    assert forall p :: 0 <= p < |data| ==> after[p].key == data[p].key;
    forall k ensures Has(after, k) <==> Has(data, k) {
      HasIff(after, k);
      HasIff(data, k);
    }
  }

  lemma StepKeepsSound(m: Map, owned: bool, op: Operation)
    requires Sound(m) && Allowed(m, op)
    ensures Sound(Step(m, owned, op))
  {
    match op
    case Add(data, slot) =>
      InsertedKeys(m.data, slot, Entry(m.nextId, data));
      InsertedHas(m.data, slot, Entry(m.nextId, data), m.removedIds);
    case AddWithID(data, id, slot) =>
      InsertedKeys(m.data, slot, Entry(id, data));
      InsertedHas(m.data, slot, Entry(id, data), m.removedIds);
    case Remove(id) =>
      ErasedHas(m.data, id);
      MarkedHas(m.removedIds, id);
      HadIff(m.data, m.removedIds);
      HadIff(m.data, Marked(m.removedIds, id));
    case Replace(id, newData) =>
      if Has(m.data, id) {
        ReplacedKeys(m.data, id, newData);
      }
    case Clear =>
      AllMarkedHas(m.removedIds, m.data);
      HadIff(m.data, m.removedIds);
      HadIff(m.data, AllMarked(m.removedIds, m.data));
    case Begin =>
    case End =>
      if m.iterationDepth == 1 {
        ReleasedInTurnIsUnmarked(m.(iterationDepth := 0), owned, m.removedIds);
        UnmarkedKeys(m.data, m.removedIds);
      }
  }

  lemma HadIff(data: seq<Entry>, ids: seq<int>)
    ensures AllHad(data, ids) <==> forall k :: k in ids ==> Has(data, k)
  {
    assert forall i :: 0 <= i < |ids| ==> ids[i] in ids;
  }

  lemma HasCons(e: Entry, data: seq<Entry>, k: int)
    ensures Has([e] + data, k) <==> e.key == k || Has(data, k)
  {
    assert ([e] + data)[1..] == data;
  }

  lemma {:induction false} UnmarkedHas(data: seq<Entry>, ids: seq<int>, k: int)
    ensures Has(Unmarked(data, ids), k) <==> Has(data, k) && k !in ids
  {
    if data != [] {
      UnmarkedHas(data[1..], ids, k);
      var rest := Unmarked(data[1..], ids);
      assert Unmarked(data, ids) == if data[0].key in ids then rest else [data[0]] + rest;
      assert data == [data[0]] + data[1..];
      hide *;
      HasCons(data[0], data[1..], k);
      HasCons(data[0], rest, k);
    }
  }

  lemma {:induction false} UnmarkedKeys(data: seq<Entry>, ids: seq<int>)
    requires Distinct(data)
    ensures Distinct(Unmarked(data, ids))
    ensures forall k :: Has(Unmarked(data, ids), k) <==> Has(data, k) && k !in ids
  {
    if data != [] {
      var rest := Unmarked(data[1..], ids);
      UnmarkedKeys(data[1..], ids);
      forall i | 0 <= i < |rest| ensures rest[i].key != data[0].key {
        HasIff(rest, rest[i].key);
        HasIff(data[1..], rest[i].key);
      }
    }
    forall k ensures Has(Unmarked(data, ids), k) <==> Has(data, k) && k !in ids {
      UnmarkedHas(data, ids, k);
    }
  }

  /** size(): the pending ids are as many as the entries an iterator would skip. */
  lemma {:induction false} SizeCountsUnmarked(data: seq<Entry>, ids: seq<int>)
    requires Distinct(data) && Ascending(ids) && AllHad(data, ids)
    ensures |data| - |ids| == |Unmarked(data, ids)|
    decreases |ids|
  {
    if ids == [] {
      UnmarkedNone(data);
    } else {
      hide Find;
      ErasedHas(data, ids[0]);
      ValuesAfterErase(data, ids[0], ids[1..]);
      ErasedIsUnmarked(data, ids[0], ids[1..]);
      assert [ids[0]] + ids[1..] == ids;
      SizeCountsUnmarked(Erased(data, ids[0]), ids[1..]);
    }
  }

  // ----- whole runs -----

  predicate AllAllowed(m: Map, owned: bool, ops: seq<Operation>)
    decreases |ops|
  {
    ops == [] || (Allowed(m, ops[0]) && AllAllowed(Step(m, owned, ops[0]), owned, ops[1..]))
  }

  function Run(m: Map, owned: bool, ops: seq<Operation>): Map
    requires AllAllowed(m, owned, ops)
    decreases |ops|
  {
    if ops == [] then m else Run(Step(m, owned, ops[0]), owned, ops[1..])
  }

  lemma {:induction false} RunKeepsSound(m: Map, owned: bool, ops: seq<Operation>)
    requires Sound(m) && AllAllowed(m, owned, ops)
    ensures Sound(Run(m, owned, ops))
    decreases |ops|
  {
    if ops != [] {
      StepKeepsSound(m, owned, ops[0]);
      RunKeepsSound(Step(m, owned, ops[0]), owned, ops[1..]);
    }
  }

  /** The pointers an operation hands to the map, and those it hands back. */
  function Given(m: Map, op: Operation): multiset<Pointer> {
    match op
    case Add(data, _) => multiset{data}
    case AddWithID(data, _, _) => multiset{data}
    case Replace(id, newData) => if Has(m.data, id) then multiset{newData} else multiset{}
    case _ => multiset{}
  }

  function HandedBack(m: Map, op: Operation): multiset<Pointer> {
    match op
    case Replace(id, _) => if Has(m.data, id) then multiset{m.data[Find(m.data, id)].value} else multiset{}
    case _ => multiset{}
  }

  function AllGiven(m: Map, owned: bool, ops: seq<Operation>): multiset<Pointer>
    requires AllAllowed(m, owned, ops)
    decreases |ops|
  {
    if ops == [] then multiset{} else Given(m, ops[0]) + AllGiven(Step(m, owned, ops[0]), owned, ops[1..])
  }

  function AllHandedBack(m: Map, owned: bool, ops: seq<Operation>): multiset<Pointer>
    requires AllAllowed(m, owned, ops)
    decreases |ops|
  {
    if ops == [] then multiset{} else HandedBack(m, ops[0]) + AllHandedBack(Step(m, owned, ops[0]), owned, ops[1..])
  }

  /** The pointers the map answers for: those in the table and those it deleted. */
  function Accounted(m: Map): multiset<Pointer> {
    multiset(Values(m.data)) + multiset(m.deleted)
  }

  lemma ValuesSplice(data: seq<Entry>, i: nat, e: Entry)
    requires i <= |data|
    ensures multiset(Values(data[..i] + [e] + data[i..])) == multiset(Values(data)) + multiset{e.value}
  {
    assert Values(data[..i] + [e] + data[i..]) == Values(data[..i]) + [e.value] + Values(data[i..]);
    assert Values(data) == Values(data[..i]) + Values(data[i..]);
  }

  lemma CutOutValues(data: seq<Entry>, i: nat)
    requires i < |data|
    ensures multiset(Values(data)) == multiset(Values(data[..i] + data[i + 1..])) + multiset{data[i].value}
  {
    var rest := data[..i] + data[i + 1..];
    assert rest[..i] == data[..i] && rest[i..] == data[i + 1..];
    assert data == rest[..i] + [data[i]] + rest[i..];
    ValuesSplice(rest, i, data[i]);
  }

  lemma ReleasedConserves(m: Map, id: int)
    ensures Accounted(Released(m, true, id)) == Accounted(m)
  {
    hide Values, Find;
    var i := Find(m.data, id);
    if i < |m.data| {
      CutOutValues(m.data, i);
      assert multiset(m.deleted + [m.data[i].value]) == multiset(m.deleted) + multiset{m.data[i].value};
    }
  }

  lemma {:induction false} ReleasedInTurnConserves(m: Map, ids: seq<int>)
    ensures Accounted(ReleasedInTurn(m, true, ids)) == Accounted(m)
    decreases |ids|
  {
    if ids != [] {
      ReleasedConserves(m, ids[0]);
      ReleasedInTurnConserves(Released(m, true, ids[0]), ids[1..]);
    }
  }

  lemma ReplaceConserves(data: seq<Entry>, i: nat, e: Entry)
    requires i < |data|
    ensures multiset(Values(data[i := e])) + multiset{data[i].value} == multiset(Values(data)) + multiset{e.value}
  {
    var rest := data[..i] + data[i + 1..];
    assert rest[..i] == data[..i] && rest[i..] == data[i + 1..];
    assert data == rest[..i] + [data[i]] + rest[i..];
    assert data[i := e] == rest[..i] + [e] + rest[i..];
    ValuesSplice(rest, i, data[i]);
    ValuesSplice(rest, i, e);
  }

  lemma ClearConserves(m: Map)
    requires m.iterationDepth == 0
    ensures Accounted(Step(m, true, Clear)) == Accounted(m)
  {
    assert Values([]) == [];
  }

  lemma Beside(a: multiset<Pointer>, h: multiset<Pointer>, b: multiset<Pointer>, g: multiset<Pointer>, d: multiset<Pointer>)
    requires a + h == b + g
    ensures a + d + h == b + d + g
  {
    assert a + d + h == (a + h) + d;
    assert b + d + g == (b + g) + d;
  }

  lemma ReplaceStepConserves(m: Map, id: int, newData: Pointer)
    ensures var op := Replace(id, newData); Accounted(Step(m, true, op)) + HandedBack(m, op) == Accounted(m) + Given(m, op)
  {
    hide Values, Find;
    if Has(m.data, id) {
      var i := Find(m.data, id);
      ReplaceConserves(m.data, i, Entry(id, newData));
      Beside(multiset(Values(m.data[i := Entry(id, newData)])), multiset{m.data[i].value},
             multiset(Values(m.data)), multiset{newData}, multiset(m.deleted));
    }
  }

  lemma StepConserves(m: Map, op: Operation)
    requires Allowed(m, op)
    ensures Accounted(Step(m, true, op)) + HandedBack(m, op) == Accounted(m) + Given(m, op)
  {
    match op
    case Add(data, slot) =>
      ValuesSplice(m.data, slot, Entry(m.nextId, data));
    case AddWithID(data, id, slot) =>
      ValuesSplice(m.data, slot, Entry(id, data));
    case Remove(id) =>
      ReleasedConserves(m, id);
    case Replace(id, newData) =>
      ReplaceStepConserves(m, id, newData);
    case Clear =>
      if m.iterationDepth == 0 {
        ClearConserves(m);
      }
    case Begin =>
    case End =>
      hide ReleasedInTurn;
      ReleasedInTurnConserves(m.(iterationDepth := m.iterationDepth - 1), m.removedIds);
  }

  lemma Chain(a: multiset<Pointer>, b: multiset<Pointer>, c: multiset<Pointer>,
              h: multiset<Pointer>, more: multiset<Pointer>, g: multiset<Pointer>, further: multiset<Pointer>)
    requires b + h == a + g && c + more == b + further
    ensures c + (h + more) == a + (g + further)
  {
    forall x ensures (c + (h + more))[x] == (a + (g + further))[x] {
      assert (b + h)[x] == (a + g)[x] && (c + more)[x] == (b + further)[x];
    }
  }

  /** A map that owns its pointers deletes each one it was given once, unless it still holds it or Replace gave it back. */
  lemma {:induction false} RunConserves(m: Map, ops: seq<Operation>)
    requires AllAllowed(m, true, ops)
    ensures Accounted(Run(m, true, ops)) + AllHandedBack(m, true, ops) == Accounted(m) + AllGiven(m, true, ops)
    decreases |ops|
  {
    if ops != [] {
      var next := Step(m, true, ops[0]);
      StepConserves(m, ops[0]);
      RunConserves(next, ops[1..]);
      hide Accounted, Given, HandedBack, Step;
      Chain(Accounted(m), Accounted(next), Accounted(Run(m, true, ops)), HandedBack(m, ops[0]),
            AllHandedBack(next, true, ops[1..]), Given(m, ops[0]), AllGiven(next, true, ops[1..]));
    }
  }

  // ----- removal while iterators live -----

  /** Some iterator is live all along, and nothing is added, which might move entries past it. */
  predicate StaysLive(m: Map, owned: bool, ops: seq<Operation>)
    requires AllAllowed(m, owned, ops)
    decreases |ops|
  {
    m.iterationDepth > 0 && (ops == [] || (!Adds(ops[0]) && StaysLive(Step(m, owned, ops[0]), owned, ops[1..])))
  }

  ghost predicate Requested(ops: seq<Operation>, id: int) {
    Remove(id) in ops || Clear in ops
  }

  ghost predicate SameKeys(data: seq<Entry>, other: seq<Entry>) {
    |data| == |other| && forall i :: 0 <= i < |data| ==> data[i].key == other[i].key
  }

  lemma SameKeysHas(data: seq<Entry>, other: seq<Entry>)
    requires SameKeys(data, other)
    ensures forall k :: Has(data, k) <==> Has(other, k)
  {
    forall k ensures Has(data, k) <==> Has(other, k) {
      HasIff(data, k);
      HasIff(other, k);
    }
  }

  lemma StepWhileLive(m: Map, owned: bool, op: Operation)
    requires Sound(m) && Allowed(m, op) && !Adds(op) && m.iterationDepth > 0 && Step(m, owned, op).iterationDepth > 0
    ensures SameKeys(Step(m, owned, op).data, m.data) && Step(m, owned, op).deleted == m.deleted
    ensures forall k :: k in Step(m, owned, op).removedIds <==> k in m.removedIds || (Has(m.data, k) && Requested([op], k))
  {
    match op
    case Remove(id) =>
      MarkedHas(m.removedIds, id);
    case Clear =>
      AllMarkedHas(m.removedIds, m.data);
    case Replace(id, newData) =>
    case Begin =>
    case End =>
  }

  /** While any iterator lives, entries stay where they are, nothing is deleted, and exactly the requested ids are pending. */
  lemma {:induction false} DeferredWhileLive(m: Map, owned: bool, ops: seq<Operation>)
    requires Sound(m) && AllAllowed(m, owned, ops) && StaysLive(m, owned, ops)
    ensures var after := Run(m, owned, ops);
      && Sound(after) && SameKeys(after.data, m.data) && after.deleted == m.deleted
      && forall k :: k in after.removedIds <==> k in m.removedIds || (Has(m.data, k) && Requested(ops, k))
    decreases |ops|
  {
    if ops != [] {
      var next := Step(m, owned, ops[0]);
      StepKeepsSound(m, owned, ops[0]);
      StepWhileLive(m, owned, ops[0]);
      SameKeysHas(next.data, m.data);
      DeferredWhileLive(next, owned, ops[1..]);
      assert forall op :: op in ops <==> op in [ops[0]] || op in ops[1..];
    }
  }

  /** When the last iterator goes, exactly the entries never asked to be removed are left, in their order. */
  lemma OutermostIterationEnds(m: Map, owned: bool, ops: seq<Operation>)
    requires Sound(m) && AllAllowed(m, owned, ops) && StaysLive(m, owned, ops)
    requires Run(m, owned, ops).iterationDepth == 1
    ensures var last := Run(m, owned, ops); var after := Step(last, owned, End);
      && AllHad(last.data, last.removedIds) && after.data == Unmarked(last.data, last.removedIds)
      && (forall k :: Has(after.data, k) <==> Has(m.data, k) && k !in m.removedIds && !Requested(ops, k))
      && after.removedIds == []
      && after.deleted == if owned then m.deleted + ValuesOf(last.data, last.removedIds) else m.deleted
  {
    DeferredWhileLive(m, owned, ops);
    var last := Run(m, owned, ops);
    SameKeysHas(last.data, m.data);
    ReleasedInTurnIsUnmarked(last.(iterationDepth := 0), owned, last.removedIds);
    UnmarkedKeys(last.data, last.removedIds);
  }

  /** Outside iteration Clear does nothing to a map of external pointers. */
  lemma ClearEmptiesIff(m: Map, owned: bool)
    requires Sound(m)
    ensures m.iterationDepth == 0 ==> (Step(m, owned, Clear).data == [] <==> owned || m.data == [])
    ensures m.iterationDepth == 1 ==> Step(Step(m, owned, Clear), owned, End).data == []
  {
    if m.iterationDepth == 1 {
      assert Run(Step(m, owned, Clear), owned, []) == Step(m, owned, Clear);
      StepKeepsSound(m, owned, Clear);
      OutermostIterationEnds(m, owned, [Clear]);
      var after := Step(Step(m, owned, Clear), owned, End).data;
      if after != [] {
        HasIff(after, after[0].key);
        assert Requested([Clear], after[0].key);
        assert false;
      }
    }
  }

  // ----- what one iterator visits -----

  /** A turn of an iteration: this iterator advances, or anything else happens to the map. */
  datatype Turn = Do(op: Operation) | Advance

  ghost predicate CanPlay(m: Map, owned: bool, at: nat, turns: seq<Turn>)
    decreases |turns|
  {
    && m.iterationDepth > 0 && at <= |m.data|
    && (turns == [] ||
        match turns[0]
        case Do(op) => Allowed(m, op) && !Adds(op) && CanPlay(Step(m, owned, op), owned, at, turns[1..])
        case Advance => at < |m.data| && CanPlay(m, owned, SkipRemoved(m, at + 1), turns[1..]))
  }

  /** An entry at which the iterator came to rest, and the ids that were marked then. */
  datatype Visit = Visit(at: nat, marked: seq<int>)

  /** The map after the turns, where the iterator is then, and its visits. */
  ghost function Play(m: Map, owned: bool, at: nat, turns: seq<Turn>): (Map, nat, seq<Visit>)
    requires CanPlay(m, owned, at, turns)
    decreases |turns|
  {
    if turns == [] then (m, at, [])
    else
      match turns[0]
      case Do(op) => Play(Step(m, owned, op), owned, at, turns[1..])
      case Advance =>
        var stop := SkipRemoved(m, at + 1);
        var (after, end, visits) := Play(m, owned, stop, turns[1..]);
        (after, end, [Visit(stop, m.removedIds)] + visits)
  }

  ghost predicate Within(ids: seq<int>, more: seq<int>) {
    forall id <- ids :: id in more
  }

  /**
   The iterator moves forward only; it comes to rest on no entry that is marked at that turn,
   and what it passes over on the way there is.
   */
  ghost predicate Forward(data: seq<Entry>, from: nat, visits: seq<Visit>)
    decreases |visits|
  {
    visits != [] ==>
      var v := visits[0];
      && from < v.at <= |data|
      && (v.at < |data| ==> data[v.at].key !in v.marked)
      && (forall p :: from < p < v.at ==> data[p].key in v.marked)
      && Forward(data, v.at, visits[1..])
  }

  /** Marks only accumulate. */
  ghost predicate Accumulates(ids: seq<int>, visits: seq<Visit>, last: seq<int>)
    decreases |visits|
  {
    if visits == [] then Within(ids, last) else Within(ids, visits[0].marked) && Accumulates(visits[0].marked, visits[1..], last)
  }

  lemma WithinTransitive(a: seq<int>, visits: seq<Visit>, b: seq<int>, last: seq<int>)
    requires Within(a, b) && Accumulates(b, visits, last)
    ensures Accumulates(a, visits, last)
  {
  }

  lemma ForwardSameKeys(data: seq<Entry>, other: seq<Entry>, from: nat, visits: seq<Visit>)
    requires SameKeys(data, other) && Forward(data, from, visits)
    ensures Forward(other, from, visits)
    decreases |visits|
  {
    if visits != [] {
      ForwardSameKeys(data, other, visits[0].at, visits[1..]);
    }
  }

  function LastOf(from: nat, visits: seq<Visit>): nat {
    if visits == [] then from else visits[|visits| - 1].at
  }

  lemma {:induction false} VisitsAreExact(m: Map, owned: bool, at: nat, turns: seq<Turn>)
    requires Sound(m) && CanPlay(m, owned, at, turns)
    ensures var (after, end, visits) := Play(m, owned, at, turns);
      && SameKeys(after.data, m.data) && end == LastOf(at, visits)
      && Forward(m.data, at, visits) && Accumulates(m.removedIds, visits, after.removedIds)
    decreases |turns|
  {
    if turns != [] {
      match turns[0]
      case Do(op) =>
        var next := Step(m, owned, op);
        assert CanPlay(next, owned, at, turns[1..]);
        StepWhileLive(m, owned, op);
        StepKeepsSound(m, owned, op);
        VisitsAreExact(next, owned, at, turns[1..]);
        var (after, end, visits) := Play(next, owned, at, turns[1..]);
        hide Step, Sound, CanPlay;
        ForwardSameKeys(next.data, m.data, at, visits);
        WithinTransitive(m.removedIds, visits, next.removedIds, after.removedIds);
      case Advance =>
        var stop := SkipRemoved(m, at + 1);
        VisitsAreExact(m, owned, stop, turns[1..]);
        var (after, end, visits) := Play(m, owned, stop, turns[1..]);
        hide Sound, CanPlay;
        var all := [Visit(stop, m.removedIds)] + visits;
        assert all[1..] == visits && Within(m.removedIds, m.removedIds);
    }
  }

  /** Whatever was visited lies ahead and in order, and was unmarked; whatever was passed over was marked by the end. */
  lemma {:induction false} VisitedOrMarked(data: seq<Entry>, from: nat, ids: seq<int>, visits: seq<Visit>, last: seq<int>, p: nat)
    requires Forward(data, from, visits) && Accumulates(ids, visits, last)
    requires from < p < |data| && p <= LastOf(from, visits)
    ensures data[p].key in last || exists i :: 0 <= i < |visits| && visits[i].at == p
    ensures data[p].key in ids ==> forall i :: 0 <= i < |visits| ==> visits[i].at != p
    decreases |visits|
  {
    var v, rest := visits[0], visits[1..];
    MarksStay(v.marked, rest, last);
    AllAhead(data, v.at, rest);
    if p > v.at {
      VisitedOrMarked(data, v.at, v.marked, rest, last, p);
      if data[p].key !in last {
        var i :| 0 <= i < |rest| && rest[i].at == p;
        assert visits[i + 1].at == p;
      }
    }
    forall i | 0 <= i < |visits| && data[p].key in ids ensures visits[i].at != p {
      assert i > 0 ==> visits[i] == rest[i - 1];
    }
  }

  lemma {:induction false} MarksStay(ids: seq<int>, visits: seq<Visit>, last: seq<int>)
    requires Accumulates(ids, visits, last)
    ensures Within(ids, last)
    decreases |visits|
  {
    if visits != [] {
      MarksStay(visits[0].marked, visits[1..], last);
    }
  }

  lemma {:induction false} AllAhead(data: seq<Entry>, from: nat, visits: seq<Visit>)
    requires Forward(data, from, visits)
    ensures from <= LastOf(from, visits)
    ensures forall i :: 0 <= i < |visits| ==> from < visits[i].at <= LastOf(from, visits)
    ensures forall i, j :: 0 <= i < j < |visits| ==> visits[i].at < visits[j].at
    decreases |visits|
  {
    if visits != [] {
      AllAhead(data, visits[0].at, visits[1..]);
      assert forall i :: 0 < i < |visits| ==> visits[i] == visits[1..][i - 1];
    }
  }

  /** Once the iterator is at the end, it has visited just once every entry that was never marked. */
  lemma EveryEntryVisitedOnce(m: Map, owned: bool, turns: seq<Turn>, p: nat)
    requires Sound(m) && CanPlay(m, owned, SkipRemoved(m, 0), turns)
    requires Play(m, owned, SkipRemoved(m, 0), turns).1 == |m.data| && p < |m.data|
    ensures var (after, end, visits) := Play(m, owned, SkipRemoved(m, 0), turns);
      var all := [Visit(SkipRemoved(m, 0), m.removedIds)] + visits;
      && (m.data[p].key !in after.removedIds ==> exists i :: 0 <= i < |all| && all[i].at == p)
      && (forall i, j :: 0 <= i < j < |all| ==> all[i].at < all[j].at)
      && (m.data[p].key in m.removedIds ==> forall i :: 0 <= i < |all| ==> all[i].at != p)
  {
    var start := SkipRemoved(m, 0);
    VisitsAreExact(m, owned, start, turns);
    var (after, end, visits) := Play(m, owned, start, turns);
    AllAhead(m.data, start, visits);
    MarksStay(m.removedIds, visits, after.removedIds);
    var all := [Visit(start, m.removedIds)] + visits;
    assert forall i :: 0 < i < |all| ==> all[i] == visits[i - 1];
    if p == start {
      assert all[0].at == p;
    } else if p > start {
      VisitedOrMarked(m.data, start, m.removedIds, visits, after.removedIds, p);
      if m.data[p].key !in after.removedIds {
        var i :| 0 <= i < |visits| && visits[i].at == p;
        assert all[i + 1].at == p;
      }
    }
  }

  // ----- the map and its iterators, in place -----

  class IDMap {
    /** Whether the map deletes the pointers of the entries it drops. */
    const owned: bool
    var data: seq<Entry>
    var removedIds: seq<int>
    var iterationDepth: nat
    var nextId: int
    var deleted: seq<Pointer>

    function State(): Map
      reads this
    {
      Map(data, removedIds, iterationDepth, nextId, deleted)
    }

    ghost predicate Valid()
      reads this
    {
      Sound(State())
    }

    constructor (owned: bool)
      ensures Valid() && this.owned == owned && State() == Map([], [], 0, 1, [])
    {
      this.owned := owned;
      data, removedIds, iterationDepth, nextId, deleted := [], [], 0, 1, [];
    }

    method Release(value: Pointer)
      modifies this`deleted
      ensures deleted == if owned then old(deleted) + [value] else old(deleted)
    {
      if owned {
        deleted := deleted + [value];
      }
    }

    method ReleaseAll()
      modifies this`deleted, this`data
      ensures owned ==> data == [] && deleted == old(deleted) + Values(old(data))
      ensures !owned ==> data == old(data) && deleted == old(deleted)
    {
      if owned {
        for i := 0 to |data|
          invariant data == old(data) && deleted == old(deleted) + Values(old(data))[..i]
        {
          deleted := deleted + [data[i].value];
        }
        data := [];
      }
    }

    method Add(value: Pointer, slot: nat) returns (id: int)
      requires Valid() && Allowed(State(), Operation.Add(value, slot))
      modifies this
      ensures Valid() && State() == Step(old(State()), owned, Operation.Add(value, slot)) && id == old(nextId)
    {
      StepKeepsSound(State(), owned, Operation.Add(value, slot));
      id := nextId;
      data := Inserted(data, slot, Entry(id, value));
      nextId := nextId + 1;
    }

    method AddWithID(value: Pointer, id: int, slot: nat)
      requires Valid() && Allowed(State(), Operation.AddWithID(value, id, slot))
      modifies this
      ensures Valid() && State() == Step(old(State()), owned, Operation.AddWithID(value, id, slot))
    {
      StepKeepsSound(State(), owned, Operation.AddWithID(value, id, slot));
      data := Inserted(data, slot, Entry(id, value));
    }

    method Remove(id: int)
      requires Valid()
      modifies this
      ensures Valid() && State() == Step(old(State()), owned, Operation.Remove(id))
    {
      StepKeepsSound(State(), owned, Operation.Remove(id));
      RemoveEntry(id);
    }

    /** Remove, also as Compact calls it, when the ids it is about to clear are still pending. */
    method RemoveEntry(id: int)
      modifies this
      ensures State() == Step(old(State()), owned, Operation.Remove(id))
    {
      var i := Find(data, id);
      if i == |data| {
        return;
      }
      if iterationDepth == 0 {
        Release(data[i].value);
        data := data[..i] + data[i + 1..];
      } else {
        removedIds := Marked(removedIds, id);
      }
    }

    method Replace(id: int, newData: Pointer) returns (existing: Option<Pointer>)
      requires Valid()
      modifies this
      ensures Valid() && State() == Step(old(State()), owned, Operation.Replace(id, newData))
      ensures HandedBack(old(State()), Operation.Replace(id, newData)) == if existing.None? then multiset{} else multiset{existing.value}
    {
      StepKeepsSound(State(), owned, Operation.Replace(id, newData));
      var i := Find(data, id);
      if i == |data| {
        return None;
      }
      existing := Some(data[i].value);
      data := data[i := Entry(id, newData)];
    }

    method Clear()
      requires Valid()
      modifies this
      ensures Valid() && State() == Step(old(State()), owned, Operation.Clear)
    {
      StepKeepsSound(State(), owned, Operation.Clear);
      if iterationDepth == 0 {
        ReleaseAll();
        assert Values(old(data))[..|old(data)|] == Values(old(data));
      } else {
        assert data[0..] == data;
        for i := 0 to |data|
          invariant State() == old(State()).(removedIds := removedIds)
          invariant AllMarked(removedIds, data[i..]) == AllMarked(old(removedIds), data)
        {
          assert data[i..][0] == data[i] && data[i..][1..] == data[i + 1..];
          removedIds := Marked(removedIds, data[i].key);
        }
      }
    }

    /** size(), which IsEmpty compares with zero. */
    method Size() returns (n: int)
      requires Valid()
      ensures n == |Unmarked(data, removedIds)|
    {
      SizeCountsUnmarked(data, removedIds);
      n := |data| - |removedIds|;
    }

    /** An entry is found until it is erased, even when it is marked. */
    function Lookup(id: int): (value: Option<Pointer>)
      reads this
      ensures value.Some? <==> Has(data, id)
      ensures value.Some? ==> Entry(id, value.value) in data
    {
      var i := Find(data, id);
      if i == |data| then None else Some(data[i].value)
    }

    method Compact()
      requires iterationDepth == 0
      modifies this
      ensures State() == Compacted(old(State()), owned)
    {
      var ids := removedIds;
      assert ids[0..] == ids;
      for i := 0 to |ids|
        invariant iterationDepth == 0
        invariant ReleasedInTurn(State(), owned, ids[i..]) == ReleasedInTurn(old(State()), owned, ids)
      {
        assert ids[i..][0] == ids[i] && ids[i..][1..] == ids[i + 1..];
        RemoveEntry(ids[i]);
      }
      removedIds := [];
    }
  }

  class Iterator {
    const map_: IDMap
    var at: nat

    ghost predicate Valid()
      reads this, map_
    {
      map_.Valid() && map_.iterationDepth > 0 && at <= |map_.data|
    }

    constructor (m: IDMap)
      requires m.Valid()
      modifies m
      ensures Valid() && map_ == m && m.State() == Step(old(m.State()), m.owned, Begin)
      ensures at == SkipRemoved(m.State(), 0)
    {
      map_ := m;
      at := 0;
      new;
      Init();
    }

    constructor Copy(other: Iterator)
      requires other.Valid()
      modifies other.map_
      ensures Valid() && other.Valid() && map_ == other.map_
      ensures map_.State() == Step(old(other.map_.State()), map_.owned, Begin)
      ensures at == SkipRemoved(map_.State(), other.at)
    {
      map_ := other.map_;
      at := other.at;
      new;
      Init();
    }

    method Init()
      requires map_.Valid() && at <= |map_.data|
      modifies this, map_
      ensures Valid() && map_.State() == Step(old(map_.State()), map_.owned, Begin)
      ensures at == SkipRemoved(map_.State(), old(at))
    {
      map_.iterationDepth := map_.iterationDepth + 1;
      SkipRemovedEntries();
    }

    method SkipRemovedEntries()
      requires Valid()
      modifies this
      ensures Valid() && at == SkipRemoved(map_.State(), old(at))
    {
      while at < |map_.data| && map_.data[at].key in map_.removedIds
        invariant Valid() && SkipRemoved(map_.State(), at) == SkipRemoved(map_.State(), old(at))
        decreases |map_.data| - at
      {
        at := at + 1;
      }
    }

    predicate IsAtEnd()
      reads this, map_
    {
      at == |map_.data|
    }

    method Advance()
      requires Valid() && !IsAtEnd()
      modifies this
      ensures Valid() && at == SkipRemoved(map_.State(), old(at) + 1)
    {
      at := at + 1;
      SkipRemovedEntries();
    }

    /** ~Iterator. */
    method Destroy()
      requires Valid()
      modifies map_
      ensures map_.Valid() && map_.State() == Step(old(map_.State()), map_.owned, End)
    {
      StepKeepsSound(map_.State(), map_.owned, End);
      map_.iterationDepth := map_.iterationDepth - 1;
      if map_.iterationDepth == 0 {
        map_.Compact();
      }
    }
  }
}
