/**
 base/observer_list.h: a list of observers that may be changed by the observers
 it is notifying.

 The vector `observers` holds slots; a slot becomes null when its observer is
 removed while some iterator is live, and the nulls are squeezed out when the
 last iterator goes away.  The first half of the module gives the vector's
 operations as functions and says what they do to the list one obtains by
 dropping the nulls.  The classes below change their fields in place and are
 proved against these functions.
 */
module ObserverList {
  import opened Sequences
  import opened Wrappers

  datatype NotificationType = NotifyAll | NotifyExistingOnly

  type Slots<T> = seq<Option<T>>

  // ----- the slot vector -----

  /** No observer occupies two slots. */
  ghost predicate Distinct<T(!new)>(slots: Slots<T>) {
    forall p, q :: 0 <= p < q < |slots| && slots[p].Some? ==> slots[p] != slots[q]
  }

  ghost predicate NoNulls<T(!new)>(slots: Slots<T>) {
    forall p :: 0 <= p < |slots| ==> slots[p].Some?
  }

  /** Every slot of `after` is what it was in `before`, or has become null. */
  ghost predicate OnlyNulled<T(!new)>(before: Slots<T>, after: Slots<T>) {
    |after| == |before| && forall p :: 0 <= p < |before| ==> after[p] == before[p] || after[p].None?
  }

  /** The list an outside caller sees: the slots without the nulls. */
  function Contents<T>(slots: Slots<T>): seq<T> {
    if slots == [] then []
    else (if slots[0].Some? then [slots[0].value] else []) + Contents(slots[1..])
  }

  function Find<T(==)>(slots: Slots<T>, obs: T): (i: nat)
    ensures i <= |slots|
    ensures i < |slots| ==> slots[i] == Some(obs)
    ensures forall p :: 0 <= p < i ==> slots[p] != Some(obs)
  {
    if slots == [] || slots[0] == Some(obs) then 0
    else
      var rest := Find(slots[1..], obs);
      assert forall p :: 0 < p < rest + 1 ==> slots[p] == slots[1..][p - 1];
      1 + rest
  }

  function Added<T(==)>(slots: Slots<T>, obs: T): Slots<T> {
    if Some(obs) in slots then slots else slots + [Some(obs)]
  }

  function Removed<T(==)>(slots: Slots<T>, iterating: bool, obs: T): Slots<T> {
    var i := Find(slots, obs);
    if i == |slots| then slots
    else if iterating then slots[i := None]
    else slots[..i] + slots[i + 1..]
  }

  function Cleared<T>(slots: Slots<T>, iterating: bool): Slots<T> {
    if iterating then seq(|slots|, _ => None) else []
  }

  function Compacted<T>(slots: Slots<T>): Slots<T> {
    if slots == [] then []
    else (if slots[0].None? then [] else [slots[0]]) + Compacted(slots[1..])
  }

  /** Where GetNext stops: the first occupied slot at or after `index` and below `limit`, or `limit`. */
  function SkipNulls<T>(slots: Slots<T>, index: nat, limit: nat): (i: nat)
    requires limit <= |slots|
    ensures index <= i
    ensures index <= limit ==> i <= limit
    ensures i < limit ==> slots[i].Some?
    ensures forall p :: index <= p < i && p < limit ==> slots[p].None?
    decreases limit - index
  {
    if index < limit && slots[index].None? then SkipNulls(slots, index + 1, limit) else index
  }

  // ----- what the operations do to the contents -----

  lemma {:induction false} ContentsConcat<T(!new)>(a: Slots<T>, b: Slots<T>)
    ensures Contents(a + b) == Contents(a) + Contents(b)
  {
    if a == [] {
      assert a + b == b;
    } else {
      ContentsConcat(a[1..], b);
      assert (a + b)[0] == a[0] && (a + b)[1..] == a[1..] + b;
      var head := if a[0].Some? then [a[0].value] else [];
      assert Contents(a) == head + Contents(a[1..]);
      assert Contents(a + b) == head + Contents(a[1..] + b);
      hide *;
      Regroup(head, Contents(a[1..]), Contents(b));
    }
  }

  lemma {:induction false} ContentsMember<T(!new)>(slots: Slots<T>, obs: T)
    ensures obs in Contents(slots) <==> Some(obs) in slots
  {
    if slots != [] {
      ContentsMember(slots[1..], obs);
      assert Some(obs) in slots <==> slots[0] == Some(obs) || Some(obs) in slots[1..];
    }
  }

  lemma AddKeepsOrder<T(!new)>(slots: Slots<T>, obs: T)
    requires Distinct(slots)
    ensures Distinct(Added(slots, obs))
    ensures Contents(Added(slots, obs))
         == if obs in Contents(slots) then Contents(slots) else Contents(slots) + [obs]
  {
    ContentsMember(slots, obs);
    if Some(obs) !in slots {
      ContentsConcat(slots, [Some(obs)]);
      assert Contents([Some(obs)]) == [obs];
    }
  }

  /** `list` without `obs`, everything else in the same order. */
  function Without<T(==)>(list: seq<T>, obs: T): seq<T> {
    if list == [] then []
    else (if list[0] == obs then [] else [list[0]]) + Without(list[1..], obs)
  }

  lemma {:induction false} WithoutConcat<T(!new)>(a: seq<T>, b: seq<T>, obs: T)
    ensures Without(a + b, obs) == Without(a, obs) + Without(b, obs)
  {
    if a == [] {
      assert a + b == b;
    } else {
      WithoutConcat(a[1..], b, obs);
      assert (a + b)[0] == a[0] && (a + b)[1..] == a[1..] + b;
      var head := if a[0] == obs then [] else [a[0]];
      assert Without(a, obs) == head + Without(a[1..], obs);
      assert Without(a + b, obs) == head + Without(a[1..] + b, obs);
      hide *;
      Regroup(head, Without(a[1..], obs), Without(b, obs));
    }
  }

  lemma {:induction false} WithoutAbsent<T(!new)>(a: seq<T>, obs: T)
    requires obs !in a
    ensures Without(a, obs) == a
  {
    if a != [] {
      WithoutAbsent(a[1..], obs);
    }
  }

  lemma ContentsAround<T(!new)>(before: Slots<T>, middle: Slots<T>, rest: Slots<T>)
    ensures Contents(before + middle + rest) == Contents(before) + Contents(middle) + Contents(rest)
  {
    ContentsConcat(before + middle, rest);
    ContentsConcat(before, middle);
  }

  lemma WithoutAround<T(!new)>(a: seq<T>, obs: T, b: seq<T>)
    requires obs !in a && obs !in b
    ensures Without(a + [obs] + b, obs) == a + b
  {
    assert Without([obs], obs) == [];
    hide Without;
    WithoutConcat(a + [obs], b, obs);
    WithoutConcat(a, [obs], obs);
    WithoutAbsent(a, obs);
    WithoutAbsent(b, obs);
    assert a + [] == a;
  }

  lemma HoleInContents<T(!new)>(before: Slots<T>, obs: T, hole: Slots<T>, rest: Slots<T>)
    requires Some(obs) !in before && Some(obs) !in rest && (hole == [] || hole == [None])
    ensures Contents(before + hole + rest) == Without(Contents(before + [Some(obs)] + rest), obs)
  {
    ContentsAround(before, [Some(obs)], rest);
    ContentsAround(before, hole, rest);
    assert Contents([Some(obs)]) == [obs] && Contents(hole) == [];
    ContentsMember(before, obs);
    ContentsMember(rest, obs);
    hide Contents, Without;
    WithoutAround(Contents(before), obs, Contents(rest));
    assert Contents(before) + [] == Contents(before);
  }

  /** Nulling a slot and erasing it have the same effect on the contents. */
  lemma RemoveFromContents<T(!new)>(slots: Slots<T>, iterating: bool, obs: T)
    requires Distinct(slots)
    ensures Contents(Removed(slots, iterating, obs)) == Without(Contents(slots), obs)
  {
    hide Contents, Without;
    var i := Find(slots, obs);
    if i == |slots| {
      ContentsMember(slots, obs);
      WithoutAbsent(Contents(slots), obs);
    } else {
      var before, rest := slots[..i], slots[i + 1..];
      var hole: Slots<T> := if iterating then [None] else [];
      assert slots == before + [Some(obs)] + rest;
      assert Removed(slots, iterating, obs) == before + hole + rest;
      HoleInContents(before, obs, hole, rest);
    }
  }

  /** Just the one slot goes; while iterating no slot moves, otherwise no null appears. */
  lemma RemoveKeepsShape<T(!new)>(slots: Slots<T>, iterating: bool, obs: T)
    requires Distinct(slots)
    ensures var after := Removed(slots, iterating, obs);
      && Distinct(after)
      && Some(obs) !in after
      && (iterating ==> OnlyNulled(slots, after))
      && (!iterating && NoNulls(slots) ==> NoNulls(after))
  {
    var i := Find(slots, obs);
    var after := Removed(slots, iterating, obs);
    if i < |slots| && !iterating {
      assert forall p :: 0 <= p < |after| ==> after[p] == slots[if p < i then p else p + 1];
    }
  }

  lemma RemoveMembers<T(!new)>(slots: Slots<T>, iterating: bool, obs: T)
    requires Distinct(slots)
    ensures forall other: T :: Some(other) in Removed(slots, iterating, obs) <==> Some(other) in slots && other != obs
  {
    var i := Find(slots, obs);
    var after := Removed(slots, iterating, obs);
    RemoveKeepsShape(slots, iterating, obs);
    if i < |slots| {
      var hole: Slots<T> := if iterating then [None] else [];
      assert after == slots[..i] + hole + slots[i + 1..];
      assert slots == slots[..i] + [Some(obs)] + slots[i + 1..];
    }
  }

  lemma {:induction false} ClearEmpties<T(!new)>(slots: Slots<T>, iterating: bool)
    ensures Contents(Cleared(slots, iterating)) == []
    ensures Distinct(Cleared(slots, iterating))
    ensures iterating ==> OnlyNulled(slots, Cleared(slots, iterating))
    ensures !iterating ==> Cleared(slots, iterating) == []
  {
    if iterating && slots != [] {
      ClearEmpties(slots[1..], iterating);
      assert Cleared(slots, true)[1..] == Cleared(slots[1..], true);
    }
  }

  lemma {:induction false} CompactKeepsContents<T(!new)>(slots: Slots<T>)
    ensures NoNulls(Compacted(slots))
    ensures Contents(Compacted(slots)) == Contents(slots)
  {
    if slots != [] {
      CompactKeepsContents(slots[1..]);
      if slots[0].Some? {
        assert Compacted(slots)[1..] == Compacted(slots[1..]);
      } else {
        assert Compacted(slots) == Compacted(slots[1..]);
      }
    }
  }

  lemma {:induction false} CompactMembers<T(!new)>(slots: Slots<T>)
    ensures forall s :: s in Compacted(slots) <==> s in slots && s.Some?
    ensures Compacted(slots) == [] <==> forall p :: 0 <= p < |slots| ==> slots[p].None?
  {
    if slots != [] {
      CompactMembers(slots[1..]);
      assert forall s :: s in slots <==> s == slots[0] || s in slots[1..];
      if forall p :: 0 <= p < |slots| ==> slots[p].None? {
        assert forall p :: 0 <= p < |slots[1..]| ==> slots[1..][p] == slots[p + 1];
      } else if slots[0].None? {
        var p :| 0 <= p < |slots| && slots[p].Some?;
        assert slots[p] in slots[1..];
      }
    }
  }

  lemma {:induction false} CompactKeepsDistinct<T(!new)>(slots: Slots<T>)
    requires Distinct(slots)
    ensures Distinct(Compacted(slots))
  {
    if slots != [] {
      var rest := Compacted(slots[1..]);
      assert Compacted(slots) == if slots[0].None? then rest else [slots[0]] + rest;
      DistinctTail(slots);
      hide Distinct, Compacted;
      CompactKeepsDistinct(slots[1..]);
      CompactMembers(slots[1..]);
      if slots[0].Some? {
        DistinctCons(slots[0], rest);
      }
    }
  }

  lemma DistinctTail<T(!new)>(slots: Slots<T>)
    requires Distinct(slots) && slots != []
    ensures Distinct(slots[1..]) && (slots[0].Some? ==> slots[0] !in slots[1..])
  {
    assert forall p :: 0 <= p < |slots[1..]| ==> slots[1..][p] == slots[p + 1];
  }

  lemma DistinctCons<T(!new)>(slot: Option<T>, rest: Slots<T>)
    requires Distinct(rest) && slot !in rest
    ensures Distinct([slot] + rest)
  {
  }

  lemma {:induction false} CompactOfFull<T(!new)>(slots: Slots<T>)
    requires NoNulls(slots)
    ensures Compacted(slots) == slots
  {
    if slots != [] {
      assert slots[0].Some?;
      CompactOfFull(slots[1..]);
    }
  }

  // ----- the classes -----

  lemma CompactNext<T(!new)>(slots: Slots<T>, i: nat, kept: Slots<T>)
    requires i < |slots|
    ensures kept + Compacted(slots[i..]) == (if slots[i].Some? then kept + [slots[i]] else kept) + Compacted(slots[i + 1..])
  {
    assert slots[i..][1..] == slots[i + 1..];
    var rest := Compacted(slots[i + 1..]);
    assert Compacted(slots[i..]) == (if slots[i].None? then [] else [slots[i]]) + rest;
    hide *;
    assert [] + rest == rest;
    assert kept + ([slots[i]] + rest) == kept + [slots[i]] + rest;
  }

  class ObserverListBase<T(==,!new)> {
    var observers: Slots<T>
    var notifyDepth: nat
    const kind: NotificationType
    /** Cleared by destruction; what the iterators' weak pointer tests. */
    var alive: bool

    ghost predicate Valid()
      reads this
    {
      Distinct(observers) && (notifyDepth == 0 ==> NoNulls(observers))
    }

    ghost function List(): seq<T>
      reads this
    {
      Contents(observers)
    }

    constructor (kind: NotificationType)
      ensures Valid() && alive && List() == [] && notifyDepth == 0 && this.kind == kind
      ensures observers == []
    {
      observers := [];
      notifyDepth := 0;
      this.kind := kind;
      alive := true;
    }

    method AddObserver(obs: T)
      requires Valid()
      modifies this`observers
      ensures Valid()
      ensures observers == Added(old(observers), obs) && old(observers) <= observers
      ensures List() == if obs in old(List()) then old(List()) else old(List()) + [obs]
    {
      AddKeepsOrder(observers, obs);
      if Some(obs) in observers {
        return;
      }
      observers := observers + [Some(obs)];
    }

    /** std::find. */
    method SlotOf(obs: T) returns (i: nat)
      ensures i == Find(observers, obs)
    {
      i := 0;
      while i < |observers| && observers[i] != Some(obs)
        invariant i <= Find(observers, obs)
      {
        i := i + 1;
      }
    }

    method RemoveObserver(obs: T)
      requires Valid()
      modifies this`observers
      ensures Valid()
      ensures observers == Removed(old(observers), notifyDepth > 0, obs)
      ensures notifyDepth > 0 ==> OnlyNulled(old(observers), observers)
      ensures List() == Without(old(List()), obs)
    {
      RemoveKeepsShape(observers, notifyDepth > 0, obs);
      RemoveFromContents(observers, notifyDepth > 0, obs);
      hide Contents, Without, OnlyNulled, Distinct;
      var i := SlotOf(obs);
      if i < |observers| {
        if notifyDepth > 0 {
          observers := observers[i := None];
        } else {
          observers := observers[..i] + observers[i + 1..];
        }
      }
    }

    method HasObserver(obs: T) returns (found: bool)
      requires Valid()
      ensures found <==> obs in List()
    {
      ContentsMember(observers, obs);
      for i := 0 to |observers|
        invariant forall p :: 0 <= p < i ==> observers[p] != Some(obs)
      {
        if observers[i] == Some(obs) {
          return true;
        }
      }
      return false;
    }

    method Clear()
      requires Valid()
      modifies this`observers
      ensures Valid()
      ensures observers == Cleared(old(observers), notifyDepth > 0)
      ensures notifyDepth > 0 ==> OnlyNulled(old(observers), observers)
      ensures List() == []
    {
      ClearEmpties(observers, notifyDepth > 0);
      if notifyDepth > 0 {
        for i := 0 to |observers|
          invariant |observers| == |old(observers)|
          invariant forall p :: 0 <= p < i ==> observers[p].None?
        {
          observers := observers[i := None];
        }
        assert observers == Cleared(old(observers), true);
      } else {
        observers := [];
      }
    }

    method Compact()
      requires Distinct(observers)
      modifies this`observers
      ensures Valid() && NoNulls(observers)
      ensures observers == Compacted(old(observers))
      ensures List() == old(List())
    {
      CompactKeepsContents(observers);
      CompactKeepsDistinct(observers);
      var kept: Slots<T> := [];
      for i := 0 to |observers|
        invariant observers == old(observers)
        invariant kept + Compacted(observers[i..]) == Compacted(observers)
      {
        hide *;
        CompactNext(observers, i, kept);
        if observers[i].Some? {
          kept := kept + [observers[i]];
        }
      }
      assert kept + [] == kept;
      observers := kept;
    }

    method Destroy()
      requires alive
      modifies this`alive
      ensures !alive
    {
      alive := false;
    }
  }

  class Iterator<T(==,!new)> {
    const list: ObserverListBase<T>
    var index: nat
    /** None stands for numeric_limits<size_t>::max(), which no vector's size exceeds. */
    const maxIndex: Option<nat>

    constructor (list: ObserverListBase<T>)
      requires list.Valid() && list.alive
      modifies list`notifyDepth
      ensures this.list == list && index == 0
      ensures maxIndex == if list.kind == NotifyAll then None else Some(|list.observers|)
      ensures list.Valid() && list.notifyDepth == old(list.notifyDepth) + 1
    {
      this.list := list;
      index := 0;
      maxIndex := if list.kind == NotifyAll then None else Some(|list.observers|);
      new;
      list.notifyDepth := list.notifyDepth + 1;
    }

    /** The result is the first occupied slot not yet passed, and the iterator moves just past it. */
    method GetNext() returns (obs: Option<T>)
      requires list.Valid()
      modifies this`index
      ensures !list.alive ==> obs == None && index == old(index)
      ensures list.alive ==>
        var limit := CursorLimit(maxIndex, |list.observers|);
        var stop := SkipNulls(list.observers, old(index), limit);
        if stop < limit then obs == list.observers[stop] && obs.Some? && index == stop + 1
        else obs == None && index == stop
    {
      if !list.alive {
        return None;
      }
      var limit := match maxIndex case None => |list.observers| case Some(m) => if m <= |list.observers| then m else |list.observers|;
      ghost var stop := SkipNulls(list.observers, index, limit);
      while index < limit && list.observers[index].None?
        invariant SkipNulls(list.observers, index, limit) == stop
      {
        index := index + 1;
      }
      if index < limit {
        obs := list.observers[index];
        index := index + 1;
      } else {
        obs := None;
      }
    }

    /** The destructor; compacts when the outermost iteration ends, and nothing if the list has gone. */
    method Destroy()
      requires list.Valid() && list.notifyDepth > 0
      modifies list`notifyDepth, list`observers
      ensures list.Valid()
      ensures list.List() == old(list.List())
      ensures list.notifyDepth == if list.alive then old(list.notifyDepth) - 1 else old(list.notifyDepth)
      ensures list.observers == if list.alive && list.notifyDepth == 0 then Compacted(old(list.observers)) else old(list.observers)
    {
      if list.alive {
        list.notifyDepth := list.notifyDepth - 1;
        if list.notifyDepth == 0 {
          list.Compact();
        }
      }
    }
  }

  /** The end of an iterator's range: min(max_index_, observers.size()). */
  function CursorLimit(maxIndex: Option<nat>, size: nat): (limit: nat)
    ensures limit <= size
  {
    match maxIndex
    case None => size
    case Some(m) => if m <= size then m else size
  }
}
