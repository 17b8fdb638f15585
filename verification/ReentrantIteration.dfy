/**
 What base/observer_list.h promises to code that iterates while the list
 changes: any number of iterators, interleaved with adds, removes and clears.

 `Concrete` is the implementation's state: slots, nulls, a depth counter and
 index cursors.  `Registry` is what a caller may think instead: every
 registration has a serial number, and an iterator delivers, each time, the
 oldest registration that is still there and that it has not yet passed.
 `RunRefines` proves that no caller can tell the two apart.
 */
module ReentrantIteration {
  import opened Sequences
  import opened Wrappers
  import opened ObserverList

  datatype Op<T> =
    | Add(obs: T)
    | Remove(obs: T)
    | Clear
    | Has(obs: T)
    | Begin(id: nat)
    | GetNext(id: nat)
    | End(id: nat)

  // ----- the implementation -----

  datatype Cursor = Cursor(index: nat, maxIndex: Option<nat>)

  datatype Concrete<T> = Concrete(slots: Slots<T>, depth: nat, kind: NotificationType, cursors: map<nat, Cursor>)

  function NewList<T>(kind: NotificationType): Concrete<T> {
    Concrete([], 0, kind, map[])
  }

  /** An iterator begins once and is used only between its construction and its destruction. */
  predicate Allowed<T>(ids: set<nat>, op: Op<T>) {
    match op
    case Begin(id) => id !in ids
    case GetNext(id) => id in ids
    case End(id) => id in ids
    case _ => true
  }

  /** One call, and what it returns. */
  function Step<T(==)>(c: Concrete<T>, op: Op<T>): (Concrete<T>, Option<T>)
    requires Allowed(c.cursors.Keys, op)
  {
    match op
    case Add(obs) => (c.(slots := Added(c.slots, obs)), None)
    case Remove(obs) => (c.(slots := Removed(c.slots, c.depth > 0, obs)), None)
    case Clear => (c.(slots := Cleared(c.slots, c.depth > 0)), None)
    case Has(obs) => (c, if Some(obs) in c.slots then Some(obs) else None)
    case Begin(id) =>
      var cursor := Cursor(0, if c.kind == NotifyAll then None else Some(|c.slots|));
      (c.(depth := c.depth + 1, cursors := c.cursors[id := cursor]), None)
    case GetNext(id) =>
      var cursor := c.cursors[id];
      var limit := CursorLimit(cursor.maxIndex, |c.slots|);
      var stop := SkipNulls(c.slots, cursor.index, limit);
      if stop < limit then
        (c.(cursors := c.cursors[id := cursor.(index := stop + 1)]), c.slots[stop])
      else
        (c.(cursors := c.cursors[id := cursor.(index := stop)]), None)
    case End(id) =>
      var depth := if c.depth == 0 then 0 else c.depth - 1;
      (c.(depth := depth, cursors := c.cursors - {id}, slots := if depth == 0 then Compacted(c.slots) else c.slots), None)
  }

  // ----- the specification -----

  /** `after` is the last serial number delivered, and deliveries stay below `before`. */
  datatype Reader = Reader(after: int, before: Option<nat>)

  datatype Registry<T> = Registry(regs: map<nat, T>, nextSerial: nat, kind: NotificationType, readers: map<nat, Reader>)

  function NewRegistry<T>(kind: NotificationType): Registry<T> {
    Registry(map[], 0, kind, map[])
  }

  predicate Eligible(r: Reader, serial: nat) {
    r.before.Some? ==> serial < r.before.value
  }

  predicate Awaits(r: Reader, serial: nat) {
    r.after < serial && Eligible(r, serial)
  }

  /** Whether `hit` is the registration this call is about: the one found, or the one delivered. */
  ghost predicate Correct<T>(a: Registry<T>, op: Op<T>, hit: Option<nat>)
    requires Allowed(a.readers.Keys, op)
  {
    match op
    case Has(obs) =>
      if hit.Some? then hit.value in a.regs && a.regs[hit.value] == obs
      else forall s :: s in a.regs ==> a.regs[s] != obs
    case GetNext(id) =>
      if hit.Some? then
        && hit.value in a.regs
        && Awaits(a.readers[id], hit.value)
        && forall s :: s in a.regs && Awaits(a.readers[id], s) ==> hit.value <= s
      else forall s :: s in a.regs ==> !Awaits(a.readers[id], s)
    case _ => hit.None?
  }

  function Apply<T(==)>(a: Registry<T>, op: Op<T>, hit: Option<nat>): Registry<T>
    requires Allowed(a.readers.Keys, op)
  {
    match op
    case Add(obs) =>
      if obs in a.regs.Values then a else a.(regs := a.regs[a.nextSerial := obs], nextSerial := a.nextSerial + 1)
    case Remove(obs) => a.(regs := map s | s in a.regs && a.regs[s] != obs :: a.regs[s])
    case Clear => a.(regs := map[])
    case Has(_) => a
    case Begin(id) =>
      a.(readers := a.readers[id := Reader(-1, if a.kind == NotifyAll then None else Some(a.nextSerial))])
    case GetNext(id) =>
      if hit.Some? then a.(readers := a.readers[id := a.readers[id].(after := hit.value)]) else a
    case End(id) => a.(readers := a.readers - {id})
  }

  function Answer<T>(a: Registry<T>, hit: Option<nat>): Option<T> {
    if hit.Some? && hit.value in a.regs then Some(a.regs[hit.value]) else None
  }

  // ----- one step refines one step -----

  /** Slot p holds registration serials[p], or a null in the place it once held. */
  ghost predicate Numbered<T(!new)>(slots: Slots<T>, serials: seq<nat>, regs: map<nat, T>) {
    && |serials| == |slots|
    && Increasing(serials)
    && forall p :: 0 <= p < |slots| ==> slots[p] == if serials[p] in regs then Some(regs[serials[p]]) else None
  }

  ghost predicate Increasing(serials: seq<nat>) {
    forall p, q :: 0 <= p < q < |serials| ==> serials[p] < serials[q]
  }

  ghost predicate Passed(serials: seq<nat>, regs: set<nat>, nextSerial: nat, cursor: Cursor, r: Reader) {
    && cursor.index <= |serials|
    && r.after < nextSerial
    && (r.before.Some? ==> r.before.value <= nextSerial)
    && (cursor.maxIndex.Some? ==> cursor.maxIndex.value <= |serials|)
    && (forall p :: 0 <= p < |serials| && p < cursor.index ==> serials[p] <= r.after || serials[p] !in regs)
    && (forall p :: cursor.index <= p < |serials| ==> serials[p] > r.after)
    && (cursor.maxIndex.None? <==> r.before.None?)
    && (cursor.maxIndex.Some? ==> forall p :: 0 <= p < |serials| ==> (p < cursor.maxIndex.value <==> serials[p] < r.before.value))
  }

  ghost predicate SlotsRefine<T(!new)>(slots: Slots<T>, depth: nat, regs: map<nat, T>, nextSerial: nat, serials: seq<nat>) {
    && Numbered(slots, serials, regs)
    && (forall s :: s in regs ==> s in serials)
    && (forall s :: s in serials ==> s < nextSerial)
    && Distinct(slots)
    && (depth == 0 ==> NoNulls(slots))
  }

  ghost predicate CursorsRefine(cursors: map<nat, Cursor>, readers: map<nat, Reader>, regs: set<nat>, nextSerial: nat, serials: seq<nat>) {
    && cursors.Keys == readers.Keys
    && (forall id :: id in cursors ==> Passed(serials, regs, nextSerial, cursors[id], readers[id]))
  }

  ghost predicate Refines<T(!new)>(c: Concrete<T>, a: Registry<T>, serials: seq<nat>) {
    && SlotsRefine(c.slots, c.depth, a.regs, a.nextSerial, serials)
    && CursorsRefine(c.cursors, a.readers, a.regs.Keys, a.nextSerial, serials)
    && c.kind == a.kind
    && c.depth == |c.cursors|
  }

  lemma Registered<T(!new)>(c: Concrete<T>, a: Registry<T>, serials: seq<nat>, obs: T) returns (p: nat)
    requires Refines(c, a, serials)
    ensures Some(obs) in c.slots <==> obs in a.regs.Values
    ensures p == Find(c.slots, obs)
    ensures p < |c.slots| ==> serials[p] in a.regs && a.regs[serials[p]] == obs
    ensures forall s :: s in a.regs && a.regs[s] == obs ==> p < |c.slots| && s == serials[p]
  {
    p := Find(c.slots, obs);
    forall s | s in a.regs && a.regs[s] == obs
      ensures p < |c.slots| && s == serials[p]
    {
      var q :| 0 <= q < |serials| && serials[q] == s;
      assert c.slots[q] == Some(obs);
    }
    if obs in a.regs.Values {
      var s :| s in a.regs && a.regs[s] == obs;
    }
  }

  lemma AddNumbers<T(!new)>(slots: Slots<T>, depth: nat, regs: map<nat, T>, nextSerial: nat, serials: seq<nat>, obs: T)
    requires SlotsRefine(slots, depth, regs, nextSerial, serials) && Some(obs) !in slots
    ensures SlotsRefine(slots + [Some(obs)], depth, regs[nextSerial := obs], nextSerial + 1, serials + [nextSerial])
  {
    var slots', regs', serials' := slots + [Some(obs)], regs[nextSerial := obs], serials + [nextSerial];
    assert forall s :: s in serials' <==> s in serials || s == nextSerial;
    assert forall p :: 0 <= p < |serials| ==> serials[p] in serials;
    assert Numbered(slots', serials', regs');
  }

  lemma AddPasses(serials: seq<nat>, regs: set<nat>, nextSerial: nat, cursor: Cursor, r: Reader)
    requires Passed(serials, regs, nextSerial, cursor, r)
    requires forall s :: s in serials ==> s < nextSerial
    ensures Passed(serials + [nextSerial], regs + {nextSerial}, nextSerial + 1, cursor, r)
  {
    assert forall p :: 0 <= p < |serials| ==> serials[p] in serials;
  }

  lemma AddCursors<T(!new)>(c: Concrete<T>, a: Registry<T>, serials: seq<nat>)
    requires Refines(c, a, serials)
    ensures CursorsRefine(c.cursors, a.readers, a.regs.Keys + {a.nextSerial}, a.nextSerial + 1, serials + [a.nextSerial])
  {
    forall id | id in c.cursors
      ensures Passed(serials + [a.nextSerial], a.regs.Keys + {a.nextSerial}, a.nextSerial + 1, c.cursors[id], a.readers[id])
    {
      AddPasses(serials, a.regs.Keys, a.nextSerial, c.cursors[id], a.readers[id]);
    }
  }

  lemma AddNewRefines<T(!new)>(c: Concrete<T>, a: Registry<T>, serials: seq<nat>, obs: T)
    requires Refines(c, a, serials)
    requires Some(obs) !in c.slots
    ensures Refines(c.(slots := c.slots + [Some(obs)]), a.(regs := a.regs[a.nextSerial := obs], nextSerial := a.nextSerial + 1), serials + [a.nextSerial])
  {
    hide SlotsRefine, CursorsRefine;
    AddNumbers(c.slots, c.depth, a.regs, a.nextSerial, serials, obs);
    AddCursors(c, a, serials);
    assert a.regs[a.nextSerial := obs].Keys == a.regs.Keys + {a.nextSerial};
  }

  lemma AddRefines<T(!new)>(c: Concrete<T>, a: Registry<T>, serials: seq<nat>, obs: T) returns (serials': seq<nat>)
    requires Refines(c, a, serials)
    ensures Refines(Step(c, Add(obs)).0, Apply(a, Add(obs), None), serials')
  {
    var p := Registered(c, a, serials, obs);
    hide Refines;
    if Some(obs) in c.slots {
      serials' := serials;
    } else {
      serials' := serials + [a.nextSerial];
      AddNewRefines(c, a, serials, obs);
    }
  }

  lemma EraseSerial(serials: seq<nat>, p: nat)
    requires Increasing(serials) && p < |serials|
    ensures var serials' := serials[..p] + serials[p + 1..];
      && Increasing(serials')
      && (forall q :: 0 <= q < |serials'| ==> serials'[q] == serials[if q < p then q else q + 1])
      && (forall s :: s in serials' <==> s in serials && s != serials[p])
  {
    var serials' := serials[..p] + serials[p + 1..];
    CutOut(serials, p);
    forall s | s in serials && s != serials[p]
      ensures s in serials'
    {
      var q :| 0 <= q < |serials| && serials[q] == s;
      assert s == serials'[if q < p then q else q - 1];
    }
  }

  lemma EraseNumbers<T(!new)>(slots: Slots<T>, regs: map<nat, T>, nextSerial: nat, serials: seq<nat>, p: nat, regs': map<nat, T>)
    requires SlotsRefine(slots, 0, regs, nextSerial, serials) && p < |slots|
    requires regs'.Keys == regs.Keys - {serials[p]} && forall s :: s in regs' ==> regs'[s] == regs[s]
    requires Distinct(slots[..p] + slots[p + 1..])
    ensures SlotsRefine(slots[..p] + slots[p + 1..], 0, regs', nextSerial, serials[..p] + serials[p + 1..])
  {
    var slots', serials' := slots[..p] + slots[p + 1..], serials[..p] + serials[p + 1..];
    EraseSerial(serials, p);
    EraseNumbered(slots, regs, serials, p, regs');
    hide Distinct, Increasing, Numbered;
    CutOut(slots, p);
    CutOut(serials, p);
  }

  lemma EraseNumbered<T(!new)>(slots: Slots<T>, regs: map<nat, T>, serials: seq<nat>, p: nat, regs': map<nat, T>)
    requires Numbered(slots, serials, regs) && Increasing(serials) && p < |slots|
    requires regs'.Keys == regs.Keys - {serials[p]} && forall s :: s in regs' ==> regs'[s] == regs[s]
    ensures Numbered(slots[..p] + slots[p + 1..], serials[..p] + serials[p + 1..], regs')
  {
    CutOut(slots, p);
    CutOut(serials, p);
    var serials' := serials[..p] + serials[p + 1..];
    assert forall q :: 0 <= q < |serials'| ==> serials'[q] != serials[p];
  }

  lemma RefinesDistinct<T(!new)>(c: Concrete<T>, a: Registry<T>, serials: seq<nat>)
    requires Refines(c, a, serials)
    ensures Distinct(c.slots)
  {
  }

  lemma NullNumbers<T(!new)>(slots: Slots<T>, depth: nat, regs: map<nat, T>, nextSerial: nat, serials: seq<nat>, p: nat, regs': map<nat, T>)
    requires SlotsRefine(slots, depth, regs, nextSerial, serials) && p < |slots| && depth > 0
    requires regs'.Keys == regs.Keys - {serials[p]} && forall s :: s in regs' ==> regs'[s] == regs[s]
    ensures SlotsRefine(slots[p := None], depth, regs', nextSerial, serials)
  {
    forall q | 0 <= q < |slots|
      ensures slots[p := None][q] == if serials[q] in regs' then Some(regs'[serials[q]]) else None
    {
      assert q != p ==> serials[q] != serials[p];
    }
  }

  lemma RemoveSlot<T(!new)>(c: Concrete<T>, a: Registry<T>, serials: seq<nat>, p: nat, regs': map<nat, T>) returns (slots': Slots<T>, serials': seq<nat>)
    requires Refines(c, a, serials) && p < |c.slots|
    requires regs'.Keys == a.regs.Keys - {serials[p]} && forall s :: s in regs' ==> regs'[s] == a.regs[s]
    requires Distinct(c.slots[..p] + c.slots[p + 1..])
    ensures slots' == if c.depth > 0 then c.slots[p := None] else c.slots[..p] + c.slots[p + 1..]
    ensures Refines(c.(slots := slots'), a.(regs := regs'), serials')
  {
    if c.depth > 0 {
      slots', serials' := c.slots[p := None], serials;
      NullNumbers(c.slots, c.depth, a.regs, a.nextSerial, serials, p, regs');
      CursorsKept(c.cursors, a.readers, a.regs.Keys, regs'.Keys, a.nextSerial, serials);
    } else {
      slots', serials' := c.slots[..p] + c.slots[p + 1..], serials[..p] + serials[p + 1..];
      EraseNumbers(c.slots, a.regs, a.nextSerial, serials, p, regs');
      NoCursors(c.cursors);
      assert CursorsRefine(c.cursors, a.readers, regs'.Keys, a.nextSerial, serials');
    }
    hide SlotsRefine, CursorsRefine;
  }

  lemma RemoveRefines<T(!new)>(c: Concrete<T>, a: Registry<T>, serials: seq<nat>, obs: T) returns (serials': seq<nat>)
    requires Refines(c, a, serials)
    ensures Refines(Step(c, Remove(obs)).0, Apply(a, Remove(obs), None), serials')
  {
    hide Refines, Distinct;
    RefinesDistinct(c, a, serials);
    var p := Registered(c, a, serials, obs);
    RemoveKeepsShape(c.slots, false, obs);
    var regs' := Apply(a, Remove(obs), None).regs;
    serials' := serials;
    if p == |c.slots| {
      assert regs' == a.regs;
    } else {
      var slots';
      slots', serials' := RemoveSlot(c, a, serials, p, regs');
    }
  }

  lemma CursorsKept(cursors: map<nat, Cursor>, readers: map<nat, Reader>, regs: set<nat>, regs': set<nat>, nextSerial: nat, serials: seq<nat>)
    requires CursorsRefine(cursors, readers, regs, nextSerial, serials) && regs' <= regs
    ensures CursorsRefine(cursors, readers, regs', nextSerial, serials)
  {
    forall id | id in cursors
      ensures Passed(serials, regs', nextSerial, cursors[id], readers[id])
    {
      assert Passed(serials, regs, nextSerial, cursors[id], readers[id]);
    }
  }

  lemma NoCursors(cursors: map<nat, Cursor>)
    requires |cursors| == 0
    ensures cursors == map[]
  {
  }

  lemma ClearRefines<T(!new)>(c: Concrete<T>, a: Registry<T>, serials: seq<nat>) returns (serials': seq<nat>)
    requires Refines(c, a, serials)
    ensures Refines(Step(c, Clear).0, Apply(a, Clear, None), serials')
  {
    ClearEmpties(c.slots, c.depth > 0);
    if c.depth > 0 {
      serials' := serials;
      CursorsKept(c.cursors, a.readers, a.regs.Keys, {}, a.nextSerial, serials);
    } else {
      serials' := [];
      NoCursors(c.cursors);
    }
  }

  /** Beginning an iteration, or moving one cursor, leaves the others where they were. */
  lemma OneCursor(cursors: map<nat, Cursor>, readers: map<nat, Reader>, regs: set<nat>, nextSerial: nat, serials: seq<nat>, id: nat, cursor: Cursor, r: Reader)
    requires CursorsRefine(cursors, readers, regs, nextSerial, serials)
    requires Passed(serials, regs, nextSerial, cursor, r)
    ensures CursorsRefine(cursors[id := cursor], readers[id := r], regs, nextSerial, serials)
    ensures |cursors[id := cursor]| == |cursors| + if id in cursors then 0 else 1
  {
    hide Passed;
    assert cursors[id := cursor].Keys == cursors.Keys + {id};
    assert |cursors[id := cursor].Keys| == |cursors.Keys| + if id in cursors then 0 else 1;
  }

  lemma BeginRefines<T(!new)>(c: Concrete<T>, a: Registry<T>, serials: seq<nat>, id: nat)
    requires Refines(c, a, serials) && id !in c.cursors
    ensures Refines(Step(c, Begin(id)).0, Apply(a, Begin(id), None), serials)
  {
    var cursor := Cursor(0, if c.kind == NotifyAll then None else Some(|c.slots|));
    var r := Reader(-1, if a.kind == NotifyAll then None else Some(a.nextSerial));
    assert forall p :: 0 <= p < |serials| ==> serials[p] in serials;
    OneCursor(c.cursors, a.readers, a.regs.Keys, a.nextSerial, serials, id, cursor, r);
  }

  /** Skipping nulls finds exactly the oldest registration awaited. */
  lemma SkipFinds<T(!new)>(slots: Slots<T>, serials: seq<nat>, regs: map<nat, T>, nextSerial: nat, cursor: Cursor, r: Reader) returns (hit: Option<nat>)
    requires Numbered(slots, serials, regs) && (forall s :: s in regs ==> s in serials) && (forall s :: s in serials ==> s < nextSerial)
    requires Passed(serials, regs.Keys, nextSerial, cursor, r)
    ensures var limit := CursorLimit(cursor.maxIndex, |slots|);
      var stop := SkipNulls(slots, cursor.index, limit);
      && hit == (if stop < limit then Some(serials[stop]) else None)
      && (hit.Some? ==> hit.value in regs && slots[stop] == Some(regs[hit.value]) && Awaits(r, hit.value))
      && (forall s :: s in regs && Awaits(r, s) ==> hit.Some? && hit.value <= s)
      && Passed(serials, regs.Keys, nextSerial, cursor.(index := if stop < limit then stop + 1 else stop), if hit.Some? then r.(after := hit.value) else r)
  {
    var limit := CursorLimit(cursor.maxIndex, |slots|);
    var stop := SkipNulls(slots, cursor.index, limit);
    forall p | cursor.index <= p < stop && p < limit
      ensures serials[p] !in regs
    {
      assert slots[p].None?;
    }
    hit := if stop < limit then Some(serials[stop]) else None;
    forall s | s in regs && Awaits(r, s)
      ensures stop < limit && serials[stop] <= s
    {
      assert s in serials;
      var q :| 0 <= q < |serials| && serials[q] == s;
      assert cursor.index <= q < limit;
    }
    if stop < limit {
      assert slots[stop].Some? && serials[stop] in serials;
    }
    SkipPasses(serials, regs.Keys, nextSerial, cursor, r, limit, stop);
    hide Passed;
  }

  /** Past the nulls, and past what it delivers if there is something, the cursor still has everything behind it passed. */
  lemma SkipPasses(serials: seq<nat>, regs: set<nat>, nextSerial: nat, cursor: Cursor, r: Reader, limit: nat, stop: nat)
    requires Passed(serials, regs, nextSerial, cursor, r) && Increasing(serials)
    requires limit == CursorLimit(cursor.maxIndex, |serials|) && cursor.index <= stop && (cursor.index <= limit ==> stop <= limit)
    requires cursor.index > limit ==> stop == cursor.index
    requires forall p :: cursor.index <= p < stop && p < limit ==> serials[p] !in regs
    requires stop < limit ==> serials[stop] < nextSerial
    ensures Passed(serials, regs, nextSerial, cursor.(index := if stop < limit then stop + 1 else stop),
                   if stop < limit then r.(after := serials[stop]) else r)
  {
  }

  lemma GetNextRefines<T(!new)>(c: Concrete<T>, a: Registry<T>, serials: seq<nat>, id: nat) returns (hit: Option<nat>)
    requires Refines(c, a, serials) && id in c.cursors
    ensures Correct(a, GetNext(id), hit)
    ensures Step(c, GetNext(id)).1 == Answer(a, hit)
    ensures Refines(Step(c, GetNext(id)).0, Apply(a, GetNext(id), hit), serials)
  {
    hide Passed, Numbered, SkipNulls;
    var cursor, r := c.cursors[id], a.readers[id];
    hit := SkipFinds(c.slots, serials, a.regs, a.nextSerial, cursor, r);
    var c' := Step(c, GetNext(id)).0;
    var r' := if hit.Some? then r.(after := hit.value) else r;
    assert a.readers[id := r'] == Apply(a, GetNext(id), hit).readers;
    OneCursor(c.cursors, a.readers, a.regs.Keys, a.nextSerial, serials, id, c'.cursors[id], r');
  }

  lemma NumberedTail<T(!new)>(slots: Slots<T>, serials: seq<nat>, regs: map<nat, T>)
    requires Numbered(slots, serials, regs) && slots != []
    ensures |serials| == |slots| && Numbered(slots[1..], serials[1..], regs)
    ensures slots[0] == if serials[0] in regs then Some(regs[serials[0]]) else None
    ensures forall s :: s in serials[1..] ==> serials[0] < s
  {
  }

  lemma NumberedCons<T(!new)>(slot: Option<T>, serial: nat, slots: Slots<T>, serials: seq<nat>, regs: map<nat, T>)
    requires Numbered(slots, serials, regs) && forall s :: s in serials ==> serial < s
    requires slot == if serial in regs then Some(regs[serial]) else None
    ensures Numbered([slot] + slots, [serial] + serials, regs)
  {
    assert forall q :: 0 <= q < |serials| ==> serials[q] in serials;
  }

  lemma {:induction false} CompactSerials<T(!new)>(slots: Slots<T>, serials: seq<nat>, regs: map<nat, T>) returns (kept: seq<nat>)
    requires Numbered(slots, serials, regs)
    ensures Numbered(Compacted(slots), kept, regs)
    ensures forall s :: s in kept <==> s in serials && s in regs
  {
    if slots == [] {
      kept := [];
    } else {
      NumberedTail(slots, serials, regs);
      var rest := CompactSerials(slots[1..], serials[1..], regs);
      assert serials == [serials[0]] + serials[1..];
      hide Numbered;
      if slots[0].None? {
        kept := rest;
        Empty(Compacted(slots[1..]));
      } else {
        kept := [serials[0]] + rest;
        NumberedCons(slots[0], serials[0], Compacted(slots[1..]), rest, regs);
      }
    }
  }

  lemma EndRefines<T(!new)>(c: Concrete<T>, a: Registry<T>, serials: seq<nat>, id: nat) returns (serials': seq<nat>)
    requires Refines(c, a, serials) && id in c.cursors
    ensures Refines(Step(c, End(id)).0, Apply(a, End(id), None), serials')
  {
    var cursors := c.cursors - {id};
    assert cursors.Keys == c.cursors.Keys - {id};
    assert |cursors.Keys| == |c.cursors.Keys| - 1;
    assert CursorsRefine(cursors, a.readers - {id}, a.regs.Keys, a.nextSerial, serials);
    serials' := serials;
    if c.depth == 1 {
      serials' := CompactSerials(c.slots, serials, a.regs);
      CompactKeepsContents(c.slots);
      CompactKeepsDistinct(c.slots);
      assert cursors == map[];
    }
  }

  lemma StepRefines<T(!new)>(c: Concrete<T>, a: Registry<T>, serials: seq<nat>, op: Op<T>)
    returns (hit: Option<nat>, serials': seq<nat>)
    requires Refines(c, a, serials) && Allowed(c.cursors.Keys, op)
    ensures Correct(a, op, hit)
    ensures Step(c, op).1 == Answer(a, hit)
    ensures Refines(Step(c, op).0, Apply(a, op, hit), serials')
  {
    hit, serials' := None, serials;
    match op {
      case Add(obs) => serials' := AddRefines(c, a, serials, obs);
      case Remove(obs) => serials' := RemoveRefines(c, a, serials, obs);
      case Clear => serials' := ClearRefines(c, a, serials);
      case Has(obs) =>
        var p := Registered(c, a, serials, obs);
        hit := if p < |c.slots| then Some(serials[p]) else None;
      case Begin(id) => BeginRefines(c, a, serials, id);
      case GetNext(id) => hit := GetNextRefines(c, a, serials, id);
      case End(id) => serials' := EndRefines(c, a, serials, id);
    }
  }

  // ----- whole runs -----

  /** What a sequence of calls returns; calls on iterators that do not exist are not made. */
  function Answers<T(==)>(c: Concrete<T>, ops: seq<Op<T>>): seq<Option<T>>
    decreases |ops|
  {
    if ops == [] then []
    else if !Allowed(c.cursors.Keys, ops[0]) then [None] + Answers(c, ops[1..])
    else var (c', out) := Step(c, ops[0]); [out] + Answers(c', ops[1..])
  }

  function ListAfter<T(==)>(c: Concrete<T>, ops: seq<Op<T>>): Concrete<T>
    decreases |ops|
  {
    if ops == [] then c
    else if !Allowed(c.cursors.Keys, ops[0]) then ListAfter(c, ops[1..])
    else ListAfter(Step(c, ops[0]).0, ops[1..])
  }

  ghost predicate RegistryStep<T>(a: Registry<T>, op: Op<T>, hit: Option<nat>, a': Registry<T>) {
    if Allowed(a.readers.Keys, op) then Correct(a, op, hit) && a' == Apply(a, op, hit)
    else hit.None? && a' == a
  }

  ghost predicate IsRun<T>(states: seq<Registry<T>>, ops: seq<Op<T>>, hits: seq<Option<nat>>) {
    && |hits| == |ops| && |states| == |ops| + 1
    && forall i :: 0 <= i < |ops| ==> RegistryStep(states[i], ops[i], hits[i], states[i + 1])
  }

  ghost predicate Explains<T>(states: seq<Registry<T>>, hits: seq<Option<nat>>, answers: seq<Option<T>>) {
    && |answers| == |hits| < |states|
    && forall i :: 0 <= i < |hits| ==> answers[i] == Answer(states[i], hits[i])
  }

  lemma ConsRun<T>(a: Registry<T>, op: Op<T>, hit: Option<nat>, states: seq<Registry<T>>, ops: seq<Op<T>>, hits: seq<Option<nat>>)
    requires IsRun(states, ops, hits) && RegistryStep(a, op, hit, states[0])
    ensures IsRun([a] + states, [op] + ops, [hit] + hits)
  {
    forall i | 0 <= i < |ops| + 1
      ensures RegistryStep(([a] + states)[i], ([op] + ops)[i], ([hit] + hits)[i], ([a] + states)[i + 1])
    {
      if i > 0 {
        assert RegistryStep(states[i - 1], ops[i - 1], hits[i - 1], states[i]);
      }
    }
  }

  lemma ConsExplains<T>(a: Registry<T>, hit: Option<nat>, states: seq<Registry<T>>, hits: seq<Option<nat>>, answers: seq<Option<T>>)
    requires Explains(states, hits, answers)
    ensures Explains([a] + states, [hit] + hits, [Answer(a, hit)] + answers)
  {
    hide Answer;
  }

  lemma FirstCallRefines<T(!new)>(c: Concrete<T>, a: Registry<T>, serials: seq<nat>, ops: seq<Op<T>>)
    returns (c': Concrete<T>, a': Registry<T>, hit: Option<nat>, serials': seq<nat>)
    requires Refines(c, a, serials) && ops != []
    ensures Refines(c', a', serials') && RegistryStep(a, ops[0], hit, a')
    ensures Answers(c, ops) == [Answer(a, hit)] + Answers(c', ops[1..])
    ensures ListAfter(c, ops) == ListAfter(c', ops[1..])
  {
    c', a', hit, serials' := c, a, None, serials;
    if Allowed(c.cursors.Keys, ops[0]) {
      hit, serials' := StepRefines(c, a, serials, ops[0]);
      c', a' := Step(c, ops[0]).0, Apply(a, ops[0], hit);
    }
    hide Refines, Step, Apply, Correct;
  }

  lemma {:induction false} RunRefinesFrom<T(!new)>(c: Concrete<T>, a: Registry<T>, serials: seq<nat>, ops: seq<Op<T>>)
    returns (states: seq<Registry<T>>, hits: seq<Option<nat>>, serials': seq<nat>)
    requires Refines(c, a, serials)
    ensures IsRun(states, ops, hits) && states[0] == a
    ensures Explains(states, hits, Answers(c, ops))
    ensures Refines(ListAfter(c, ops), states[|ops|], serials')
    decreases |ops|
  {
    if ops == [] {
      return [a], [], serials;
    }
    hide *;
    var c', a', hit, mid := FirstCallRefines(c, a, serials, ops);
    var states1, hits1;
    states1, hits1, serials' := RunRefinesFrom(c', a', mid, ops[1..]);
    RunLength(states1, ops[1..], hits1);
    ConsRun(a, ops[0], hit, states1, ops[1..], hits1);
    ConsExplains(a, hit, states1, hits1, Answers(c', ops[1..]));
    states, hits := [a] + states1, [hit] + hits1;
    assert ops == [ops[0]] + ops[1..];
    RunLength(states, ops, hits);
    assert states[|ops|] == states1[|ops| - 1];
  }

  lemma RunLength<T>(states: seq<Registry<T>>, ops: seq<Op<T>>, hits: seq<Option<nat>>)
    requires IsRun(states, ops, hits)
    ensures |states| == |ops| + 1 && |hits| == |ops|
  {
  }

  /**
   Every run of the implementation returns what some run of the registry returns;
   afterwards the depth is the number of live iterators, and with none live there are no nulls.
   */
  lemma RunRefines<T(!new)>(kind: NotificationType, ops: seq<Op<T>>)
    returns (states: seq<Registry<T>>, hits: seq<Option<nat>>)
    ensures IsRun(states, ops, hits) && states[0] == NewRegistry(kind)
    ensures Explains(states, hits, Answers(NewList(kind), ops))
    ensures var c := ListAfter(NewList<T>(kind), ops);
      && c.depth == |c.cursors|
      && c.cursors.Keys == states[|ops|].readers.Keys
      && (c.depth == 0 ==> NoNulls(c.slots))
      && (forall obs :: obs in Contents(c.slots) <==> obs in states[|ops|].regs.Values)
  {
    ghost var serials;
    states, hits, serials := RunRefinesFrom(NewList(kind), NewRegistry(kind), [], ops);
    var c := ListAfter(NewList<T>(kind), ops);
    forall obs
      ensures obs in Contents(c.slots) <==> obs in states[|ops|].regs.Values
    {
      var p := Registered(c, states[|ops|], serials, obs);
      ContentsMember(c.slots, obs);
    }
  }

  // ----- what a run of the registry delivers -----

  /** Iterator `id` began at step b and is still live at step j. */
  ghost predicate Session<T>(states: seq<Registry<T>>, ops: seq<Op<T>>, id: nat, b: nat, j: nat) {
    && b < j <= |ops| < |states|
    && ops[b] == Begin(id) && id !in states[b].readers
    && forall i :: b < i < j ==> ops[i] != End(id)
  }

  /** Iterator `id` delivered registration s at step i. */
  ghost predicate Delivers<T>(ops: seq<Op<T>>, hits: seq<Option<nat>>, id: nat, i: nat, s: nat) {
    i < |ops| && i < |hits| && ops[i] == GetNext(id) && hits[i] == Some(s)
  }

  ghost predicate DeliveredBetween<T>(ops: seq<Op<T>>, hits: seq<Option<nat>>, id: nat, b: nat, j: nat, s: nat) {
    exists i :: b < i < j && Delivers(ops, hits, id, i, s)
  }

  /** Serial numbers are handed out once: a registration that has gone never comes back. */
  lemma {:induction false} NeverReturns<T(!new)>(states: seq<Registry<T>>, ops: seq<Op<T>>, hits: seq<Option<nat>>, i: nat, j: nat, s: nat)
    requires IsRun(states, ops, hits) && i <= j <= |ops|
    requires s < states[i].nextSerial && s !in states[i].regs
    ensures s < states[j].nextSerial && s !in states[j].regs
    decreases j - i
  {
    if i < j {
      NeverReturns(states, ops, hits, i, j - 1, s);
      assert RegistryStep(states[j - 1], ops[j - 1], hits[j - 1], states[j]);
    }
  }

  lemma {:induction false} SerialsBelowFresh<T(!new)>(states: seq<Registry<T>>, ops: seq<Op<T>>, hits: seq<Option<nat>>, j: nat)
    requires IsRun(states, ops, hits) && j <= |ops| && states[0] == NewRegistry(states[0].kind)
    ensures forall s :: s in states[j].regs ==> s < states[j].nextSerial
  {
    if j > 0 {
      SerialsBelowFresh(states, ops, hits, j - 1);
      assert RegistryStep(states[j - 1], ops[j - 1], hits[j - 1], states[j]);
    }
  }

  /** A live reader's mark: everything it delivered lies at or below it, and what lies below it and is still there was delivered. */
  lemma {:induction false} ReaderMark<T(!new)>(states: seq<Registry<T>>, ops: seq<Op<T>>, hits: seq<Option<nat>>, id: nat, b: nat, j: nat)
    requires IsRun(states, ops, hits) && states[0] == NewRegistry(states[0].kind)
    requires Session(states, ops, id, b, j)
    ensures id in states[j].readers
    ensures var r := states[j].readers[id];
      && r.before == (if states[b].kind == NotifyAll then None else Some(states[b].nextSerial))
      && (forall i, s: nat :: b < i < j && Delivers(ops, hits, id, i, s) ==> s <= r.after)
      && (forall s :: s in states[j].regs && Eligible(r, s) && s <= r.after ==> DeliveredBetween(ops, hits, id, b, j, s))
      && r.after < states[j].nextSerial
    decreases j
  {
    assert RegistryStep(states[j - 1], ops[j - 1], hits[j - 1], states[j]);
    SerialsBelowFresh(states, ops, hits, j - 1);
    if j > b + 1 {
      ReaderMark(states, ops, hits, id, b, j - 1);
      var r, r' := states[j - 1].readers[id], states[j].readers[id];
      forall s | s in states[j].regs && Eligible(r', s) && s <= r'.after
        ensures DeliveredBetween(ops, hits, id, b, j, s)
      {
        if s <= r.after {
          assert s in states[j - 1].regs;
          var i :| b < i < j - 1 && Delivers(ops, hits, id, i, s);
        } else {
          assert Delivers(ops, hits, id, j - 1, s);
        }
      }
    }
  }

  /**
   Each GetNext of a live iterator delivers only what is registered at that moment,
   later in insertion order than anything it delivered before (so at most once),
   within what the notification type admits; and it skips nothing: whatever is still
   registered before the delivered one (or anywhere, when the iteration ends) has
   already been delivered by this iterator.
   */
  lemma DeliveryIsExact<T(!new)>(states: seq<Registry<T>>, ops: seq<Op<T>>, hits: seq<Option<nat>>, id: nat, b: nat, j: nat)
    requires IsRun(states, ops, hits) && states[0] == NewRegistry(states[0].kind)
    requires Session(states, ops, id, b, j) && j < |ops| && ops[j] == GetNext(id)
    ensures hits[j].Some? ==>
      && hits[j].value in states[j].regs
      && (states[b].kind == NotifyExistingOnly ==> hits[j].value < states[b].nextSerial)
      && forall i, s: nat :: b < i < j && Delivers(ops, hits, id, i, s) ==> s < hits[j].value
    ensures forall s ::
      && s in states[j].regs
      && (states[b].kind == NotifyExistingOnly ==> s < states[b].nextSerial)
      && (hits[j].Some? ==> s < hits[j].value)
      ==> DeliveredBetween(ops, hits, id, b, j, s)
  {
    ReaderMark(states, ops, hits, id, b, j);
    assert RegistryStep(states[j], ops[j], hits[j], states[j + 1]);
  }

  /** What was there when the iteration began and was never removed is delivered exactly once by the time it ends. */
  lemma StayersDeliveredOnce<T(!new)>(states: seq<Registry<T>>, ops: seq<Op<T>>, hits: seq<Option<nat>>, id: nat, b: nat, j: nat, s: nat)
    requires IsRun(states, ops, hits) && states[0] == NewRegistry(states[0].kind)
    requires Session(states, ops, id, b, j) && j < |ops| && ops[j] == GetNext(id) && hits[j].None?
    requires s in states[b].regs && s in states[j].regs
    ensures exists i :: b < i < j && Delivers(ops, hits, id, i, s) && forall k :: b < k < j && Delivers(ops, hits, id, k, s) ==> k == i
  {
    SerialsBelowFresh(states, ops, hits, b);
    DeliveryIsExact(states, ops, hits, id, b, j);
    assert DeliveredBetween(ops, hits, id, b, j, s);
    var i :| b < i < j && Delivers(ops, hits, id, i, s);
    forall k | b < k < j && Delivers(ops, hits, id, k, s)
      ensures k == i
    {
      if k < i {
        DeliveryIsExact(states, ops, hits, id, b, i);
      } else if i < k {
        DeliveryIsExact(states, ops, hits, id, b, k);
      }
    }
  }

  /** What was removed before an iterator reached it is never delivered by any later call. */
  lemma RemovedNeverDelivered<T(!new)>(states: seq<Registry<T>>, ops: seq<Op<T>>, hits: seq<Option<nat>>, id: nat, i: nat, j: nat, s: nat)
    requires IsRun(states, ops, hits) && i <= j < |ops|
    requires s < states[i].nextSerial && s !in states[i].regs
    ensures !Delivers(ops, hits, id, j, s)
  {
    NeverReturns(states, ops, hits, i, j, s);
    assert RegistryStep(states[j], ops[j], hits[j], states[j + 1]);
  }
}
