/**
 base/id_map.h: an id map with any number of iterators, each with an identity, begun, copied,
 advanced and destroyed in any order while the map changes.  How many are live is told from
 the sequence of events alone.
 */
module IdMapIterators {
  import opened Sequences
  import opened Wrappers
  import opened IdMap

  type IteratorId = nat

  datatype Event =
    | Change(op: Operation)
    | Start(id: IteratorId)
    | StartCopy(id: IteratorId, from: IteratorId)
    | Forward(id: IteratorId)
    | Finish(id: IteratorId)

  /** The map, and where each live iterator is. */
  datatype Session = Session(m: Map, iterators: map<IteratorId, nat>)

  /** Iterators are destroyed once, and not used afterwards. */
  predicate Proper(s: Session, e: Event) {
    match e
    case Change(op) => !op.Begin? && !op.End? && Allowed(s.m, op)
    case Start(id) => id !in s.iterators
    case StartCopy(id, from) => id !in s.iterators && from in s.iterators && s.iterators[from] <= |s.m.data|
    case Forward(id) => id in s.iterators && s.iterators[id] < |s.m.data|
    case Finish(id) => id in s.iterators && s.m.iterationDepth > 0
  }

  /** An iterator stays at its entry, whose place moves on when another lands before it. */
  function Shifted(iterators: map<IteratorId, nat>, slot: nat): (after: map<IteratorId, nat>)
    ensures after.Keys == iterators.Keys
  {
    map id | id in iterators :: if iterators[id] >= slot then iterators[id] + 1 else iterators[id]
  }

  function SessionStep(s: Session, owned: bool, e: Event): Session
    requires Proper(s, e)
  {
    match e
    case Change(op) => Session(Step(s.m, owned, op), if Adds(op) then Shifted(s.iterators, op.slot) else s.iterators)
    case Start(id) => var m := Step(s.m, owned, Begin); Session(m, s.iterators[id := SkipRemoved(m, 0)])
    case StartCopy(id, from) => var m := Step(s.m, owned, Begin); Session(m, s.iterators[id := SkipRemoved(m, s.iterators[from])])
    case Forward(id) => s.(iterators := s.iterators[id := SkipRemoved(s.m, s.iterators[id] + 1)])
    case Finish(id) => Session(Step(s.m, owned, End), s.iterators - {id})
  }

  predicate AllProper(s: Session, owned: bool, events: seq<Event>)
    decreases |events|
  {
    events == [] || (Proper(s, events[0]) && AllProper(SessionStep(s, owned, events[0]), owned, events[1..]))
  }

  function RunSession(s: Session, owned: bool, events: seq<Event>): Session
    requires AllProper(s, owned, events)
    decreases |events|
  {
    if events == [] then s else RunSession(SessionStep(s, owned, events[0]), owned, events[1..])
  }

  lemma RunNothing(s: Session, owned: bool)
    ensures AllProper(s, owned, []) && RunSession(s, owned, []) == s
  {
  }

  lemma RunStep(s: Session, owned: bool, events: seq<Event>)
    requires AllProper(s, owned, events) && events != []
    ensures Proper(s, events[0]) && AllProper(SessionStep(s, owned, events[0]), owned, events[1..])
    ensures RunSession(s, owned, events) == RunSession(SessionStep(s, owned, events[0]), owned, events[1..])
  {
  }

  // ----- which iterators live, told from the events -----

  predicate Begins(e: Event, id: IteratorId) {
    (e.Start? || e.StartCopy?) && e.id == id
  }

  /** The iterator was begun and has not been destroyed since. */
  ghost predicate LiveIn(events: seq<Event>, id: IteratorId) {
    exists i :: 0 <= i < |events| && Begins(events[i], id) && forall k :: i < k < |events| ==> events[k] != Finish(id)
  }

  lemma LiveStep(events: seq<Event>, e: Event, id: IteratorId)
    ensures LiveIn(events + [e], id) <==> Begins(e, id) || (LiveIn(events, id) && e != Finish(id))
  {
    var all := events + [e];
    assert forall k :: 0 <= k < |events| ==> all[k] == events[k];
    if Begins(e, id) {
      assert all[|events|] == e;
    } else if LiveIn(events, id) && e != Finish(id) {
      var i :| 0 <= i < |events| && Begins(events[i], id) && forall k :: i < k < |events| ==> events[k] != Finish(id);
      assert Begins(all[i], id);
    }
    if LiveIn(all, id) && !Begins(e, id) {
      var i :| 0 <= i < |all| && Begins(all[i], id) && forall k :: i < k < |all| ==> all[k] != Finish(id);
      assert i < |events| && Begins(events[i], id);
      assert all[|events|] == e;
    }
  }

  /** What holds between events: the depth is the number of live iterators, and each rests inside the table or at its end. */
  ghost predicate Good(s: Session, before: seq<Event>) {
    && Sound(s.m)
    && s.m.iterationDepth == |s.iterators|
    && (forall id: IteratorId :: id in s.iterators <==> LiveIn(before, id))
    && (forall id <- s.iterators :: s.iterators[id] <= |s.m.data|)
  }

  lemma OneIteratorMore(iterators: map<IteratorId, nat>, id: IteratorId, at: nat)
    requires id !in iterators
    ensures |iterators[id := at]| == |iterators| + 1
  {
    assert iterators[id := at].Keys == iterators.Keys + {id};
  }

  lemma OneIteratorLess(iterators: map<IteratorId, nat>, id: IteratorId)
    requires id in iterators
    ensures |iterators - {id}| == |iterators| - 1
  {
    assert (iterators - {id}).Keys == iterators.Keys - {id};
    assert iterators.Keys == (iterators - {id}).Keys + {id};
  }

  lemma SomeIterator(iterators: map<IteratorId, nat>)
    ensures |iterators| == 0 <==> iterators == map[]
  {
    if iterators != map[] {
      var id :| id in iterators;
      OneIteratorLess(iterators, id);
    }
  }

  lemma DepthStep(m: Map, owned: bool, op: Operation)
    requires Allowed(m, op)
    ensures Step(m, owned, op).iterationDepth == m.iterationDepth + (if op.Begin? then 1 else if op.End? then -1 else 0)
  {
    hide ReleasedInTurn;
  }

  lemma CountStep(s: Session, owned: bool, before: seq<Event>, e: Event)
    requires Good(s, before) && Proper(s, e)
    ensures SessionStep(s, owned, e).m.iterationDepth == |SessionStep(s, owned, e).iterators|
  {
    hide Sound, LiveIn, Step;
    match e
    case Start(id) =>
      DepthStep(s.m, owned, Begin);
      OneIteratorMore(s.iterators, id, SkipRemoved(Step(s.m, owned, Begin), 0));
    case StartCopy(id, from) =>
      DepthStep(s.m, owned, Begin);
      OneIteratorMore(s.iterators, id, SessionStep(s, owned, e).iterators[id]);
    case Forward(id) =>
      assert s.iterators[id := SkipRemoved(s.m, s.iterators[id] + 1)].Keys == s.iterators.Keys;
    case Finish(id) =>
      DepthStep(s.m, owned, End);
      OneIteratorLess(s.iterators, id);
    case Change(op) =>
      DepthStep(s.m, owned, op);
      if Adds(op) {
        assert |Shifted(s.iterators, op.slot)| == |Shifted(s.iterators, op.slot).Keys|;
      }
  }

  lemma GoodStep(s: Session, owned: bool, before: seq<Event>, e: Event)
    requires Good(s, before) && Proper(s, e)
    ensures Good(SessionStep(s, owned, e), before + [e])
  {
    var s' := SessionStep(s, owned, e);
    CountStep(s, owned, before, e);
    RestsInside(s, owned, before, e);
    forall id: IteratorId ensures id in s'.iterators <==> LiveIn(before + [e], id) {
      LiveStep(before, e, id);
      hide LiveIn, Sound, Step;
    }
    hide LiveIn, Sound, SessionStep;
  }

  lemma InsertedKeeps(data: seq<Entry>, slot: nat, e: Entry, k: int)
    requires slot <= |data| && Has(data, k)
    ensures Has(Inserted(data, slot, e), k)
  {
    InsertedHas(data, slot, e, [k]);
    assert Has(Inserted(data, slot, e), [k][0]);
  }

  /** While some iterator lives no entry goes, nothing is deleted, and only what is asked for is marked. */
  lemma StepDefers(m: Map, owned: bool, op: Operation)
    requires Sound(m) && Allowed(m, op) && m.iterationDepth > 0 && Step(m, owned, op).iterationDepth > 0
    ensures var after := Step(m, owned, op);
      && Sound(after) && after.deleted == m.deleted
      && |after.data| == |m.data| + (if Adds(op) then 1 else 0)
      && (forall k :: Has(m.data, k) ==> Has(after.data, k))
      && (forall k :: k in after.removedIds <==> k in m.removedIds || (Has(m.data, k) && (op == Remove(k) || op == Clear)))
  {
    StepKeepsSound(m, owned, op);
    if Adds(op) {
      var e := Entry(if op.Add? then m.nextId else op.id, op.data);
      assert Step(m, owned, op).data == Inserted(m.data, op.slot, e);
      hide Inserted, Find, Has, Sound;
      forall k | Has(m.data, k) ensures Has(Inserted(m.data, op.slot, e), k) {
        InsertedKeeps(m.data, op.slot, e, k);
      }
    } else {
      StepWhileLive(m, owned, op);
      SameKeysHas(Step(m, owned, op).data, m.data);
    }
  }

  lemma RestsInside(s: Session, owned: bool, before: seq<Event>, e: Event)
    requires Good(s, before) && Proper(s, e)
    ensures var s' := SessionStep(s, owned, e); Sound(s'.m) && forall id <- s'.iterators :: s'.iterators[id] <= |s'.m.data|
  {
    SomeIterator(s.iterators);
    match e
    case Change(op) =>
      StepKeepsSound(s.m, owned, op);
      DepthStep(s.m, owned, op);
      if s.iterators != map[] {
        StepDefers(s.m, owned, op);
      }
    case Start(_) => StepKeepsSound(s.m, owned, Begin);
    case StartCopy(_, _) => StepKeepsSound(s.m, owned, Begin);
    case Forward(_) =>
    case Finish(id) =>
      StepKeepsSound(s.m, owned, End);
      OneIteratorLess(s.iterators, id);
      SomeIterator(s.iterators - {id});
      if s.iterators - {id} != map[] {
        StepDefers(s.m, owned, End);
      }
  }

  /**
   In every run the iteration depth is the number of iterators that were begun and not yet
   destroyed, however they are nested, copied and mixed with changes of the map.
   */
  lemma {:induction false} DepthCountsLive(s: Session, owned: bool, before: seq<Event>, events: seq<Event>)
    requires Good(s, before) && AllProper(s, owned, events)
    ensures Good(RunSession(s, owned, events), before + events)
    decreases |events|
  {
    hide Good, SessionStep, Proper, RunSession, AllProper;
    if events == [] {
      RunNothing(s, owned);
      Empty(before);
    } else {
      RunStep(s, owned, events);
      GoodStep(s, owned, before, events[0]);
      DepthCountsLive(SessionStep(s, owned, events[0]), owned, before + [events[0]], events[1..]);
      assert before + [events[0]] + events[1..] == before + events;
    }
  }

  // ----- deferral -----

  /** At every point of the run some iterator lives. */
  ghost predicate AlwaysLive(before: seq<Event>, events: seq<Event>) {
    forall k :: 0 <= k <= |events| ==> SomeLive(before + events[..k])
  }

  ghost predicate SomeLive(events: seq<Event>) {
    exists id: IteratorId :: LiveIn(events, id)
  }

  /** The id was asked to be removed, by Remove or by Clear, while it was in the table. */
  ghost predicate Asked(s: Session, owned: bool, events: seq<Event>, id: int)
    requires AllProper(s, owned, events)
    decreases |events|
  {
    events != [] &&
    ((Has(s.m.data, id) && (events[0] == Change(Remove(id)) || events[0] == Change(Clear)))
     || Asked(SessionStep(s, owned, events[0]), owned, events[1..], id))
  }

  lemma AliveNow(s: Session, before: seq<Event>)
    requires Good(s, before)
    ensures s.m.iterationDepth > 0 <==> SomeLive(before)
  {
    SomeIterator(s.iterators);
    if s.iterators != map[] {
      var id :| id in s.iterators;
      assert LiveIn(before, id);
    }
    hide LiveIn;
  }

  lemma AlwaysLiveTail(before: seq<Event>, events: seq<Event>)
    requires AlwaysLive(before, events) && events != []
    ensures AlwaysLive(before + [events[0]], events[1..])
    ensures SomeLive(before) && SomeLive(before + [events[0]])
  {
    hide SomeLive;
    forall k | 0 <= k <= |events[1..]| ensures SomeLive(before + [events[0]] + events[1..][..k]) {
      assert before + [events[0]] + events[1..][..k] == before + events[..k + 1];
    }
    assert before + events[..0] == before;
    assert before + events[..1] == before + [events[0]];
  }

  /** What a run has not done to the map, and what it has marked. */
  ghost predicate Deferred(m: Map, after: Map) {
    after.deleted == m.deleted && forall k :: Has(m.data, k) ==> Has(after.data, k)
  }

  lemma EventDefers(s: Session, owned: bool, before: seq<Event>, e: Event)
    requires Good(s, before) && Proper(s, e)
    requires SomeLive(before) && SomeLive(before + [e])
    ensures var m' := SessionStep(s, owned, e).m;
      && Deferred(s.m, m')
      && forall k :: k in m'.removedIds <==> k in s.m.removedIds || (Has(s.m.data, k) && (e == Change(Remove(k)) || e == Change(Clear)))
  {
    GoodStep(s, owned, before, e);
    AliveNow(s, before);
    AliveNow(SessionStep(s, owned, e), before + [e]);
    hide LiveIn;
    match e
    case Change(op) => StepDefers(s.m, owned, op);
    case Start(_) => StepDefers(s.m, owned, Begin);
    case StartCopy(_, _) => StepDefers(s.m, owned, Begin);
    case Forward(_) =>
    case Finish(_) => StepDefers(s.m, owned, End);
  }

  /**
   As long as some iterator lives, no entry leaves the table and no pointer is deleted, and
   the ids pending are those that were and those asked to be removed meanwhile.
   */
  lemma {:induction false} NothingGoesWhileLive(s: Session, owned: bool, before: seq<Event>, events: seq<Event>)
    requires Good(s, before) && AllProper(s, owned, events) && AlwaysLive(before, events)
    ensures var after := RunSession(s, owned, events);
      && Good(after, before + events) && Deferred(s.m, after.m)
      && forall k :: k in after.m.removedIds <==> k in s.m.removedIds || Asked(s, owned, events, k)
    decreases |events|
  {
    hide Good, AlwaysLive, SomeLive, SessionStep, Proper, LiveIn, RunSession, AllProper, Has;
    if events == [] {
      RunNothing(s, owned);
      Empty(before);
    } else {
      RunStep(s, owned, events);
      var s' := SessionStep(s, owned, events[0]);
      AlwaysLiveTail(before, events);
      GoodStep(s, owned, before, events[0]);
      EventDefers(s, owned, before, events[0]);
      NothingGoesWhileLive(s', owned, before + [events[0]], events[1..]);
      assert before + [events[0]] + events[1..] == before + events;
    }
  }

  /**
   The end of the last live iterator takes exactly the entries whose ids are pending, and
   deletes each one's pointer once if the map owns them.
   */
  lemma LastIteratorEnds(s: Session, owned: bool, before: seq<Event>, id: IteratorId)
    requires Good(s, before) && Proper(s, Finish(id))
    requires forall other: IteratorId :: LiveIn(before, other) ==> other == id
    ensures AllHad(s.m.data, s.m.removedIds)
    ensures var after := SessionStep(s, owned, Finish(id)).m;
      && after.iterationDepth == 0 && after.removedIds == []
      && after.data == Unmarked(s.m.data, s.m.removedIds)
      && (forall k :: Has(after.data, k) <==> Has(s.m.data, k) && k !in s.m.removedIds)
      && after.deleted == if owned then s.m.deleted + ValuesOf(s.m.data, s.m.removedIds) else s.m.deleted
  {
    CountStep(s, owned, before, Finish(id));
    assert s.iterators - {id} == map[];
    hide LiveIn;
    ReleasedInTurnIsUnmarked(s.m.(iterationDepth := s.m.iterationDepth - 1), owned, s.m.removedIds);
    UnmarkedKeys(s.m.data, s.m.removedIds);
  }

  // ----- the map as its callers see it, whatever iterators are live -----

  ghost function Keys(data: seq<Entry>): (keys: set<int>)
    ensures forall k :: k in keys <==> Has(data, k)
  {
    var keys := set e | e in data :: e.key;
    assert forall k :: k in keys <==> Has(data, k) by {
      forall k ensures k in keys <==> Has(data, k) {
        HasIff(data, k);
        if Has(data, k) {
          assert data[Find(data, k)] in data;
        }
      }
    }
    keys
  }

  /** The entries that are not marked, as a finite map. */
  ghost function Table(m: Map): map<int, Pointer> {
    map k | k in Keys(m.data) && k !in m.removedIds :: ValueAt(m.data, k)
  }

  /** What an operation means to a plain map. */
  ghost function PlainStep(table: map<int, Pointer>, m: Map, owned: bool, op: Operation): map<int, Pointer> {
    match op
    case Add(data, _) => table[m.nextId := data]
    case AddWithID(data, id, _) => table[id := data]
    case Remove(id) => table - {id}
    case Replace(id, newData) => if id in table then table[id := newData] else table
    case Clear => if m.iterationDepth > 0 || owned then map[] else table
    case Begin => table
    case End => table
  }

  lemma ValueIs(data: seq<Entry>, p: nat)
    requires Distinct(data) && p < |data|
    ensures Has(data, data[p].key) && ValueAt(data, data[p].key) == data[p].value
  {
    HasIff(data, data[p].key);
  }

  /** Two tables with the same keys unmarked and the same pointers behind them. */
  lemma SameTable(a: Map, b: Map)
    requires forall k :: (Has(a.data, k) && k !in a.removedIds) <==> (Has(b.data, k) && k !in b.removedIds)
    requires forall k :: Has(a.data, k) && k !in a.removedIds ==> ValueAt(a.data, k) == ValueAt(b.data, k)
    ensures Table(a) == Table(b)
  {
    hide Has, ValueAt;
  }

  lemma InsertedValue(data: seq<Entry>, slot: nat, e: Entry, k: int)
    requires Distinct(data) && slot <= |data| && !Has(data, e.key)
    ensures var after := Inserted(data, slot, e);
      && (Has(after, k) <==> k == e.key || Has(data, k))
      && (Has(after, k) ==> ValueAt(after, k) == if k == e.key then e.value else ValueAt(data, k))
  {
    var after := Inserted(data, slot, e);
    InsertedKeys(data, slot, e);
    if k == e.key {
      ValueIs(after, slot);
    } else if Has(data, k) {
      var p := Find(data, k);
      ValueIs(data, p);
      ValueIs(after, if p < slot then p else p + 1);
    }
  }

  lemma InsertIntoTable(m: Map, slot: nat, e: Entry, after: Map)
    requires Sound(m) && slot <= |m.data| && !Has(m.data, e.key)
    requires after.data == Inserted(m.data, slot, e) && after.removedIds == m.removedIds
    ensures Table(after) == Table(m)[e.key := e.value]
  {
    if e.key in m.removedIds {
      HadIff(m.data, m.removedIds);
      assert false;
    }
    hide Inserted, Has, ValueAt, Sound, Distinct;
    forall k
      ensures k in Table(after) <==> k in Table(m) || k == e.key
      ensures k in Table(after) ==> Table(after)[k] == Table(m)[e.key := e.value][k]
    {
      InsertedValue(m.data, slot, e, k);
    }
  }

  lemma ReplacedValue(data: seq<Entry>, id: int, value: Pointer, k: int)
    requires Distinct(data) && Has(data, id)
    ensures var after := data[Find(data, id) := Entry(id, value)];
      && (Has(after, k) <==> Has(data, k))
      && (Has(after, k) ==> ValueAt(after, k) == if k == id then value else ValueAt(data, k))
  {
    var i := Find(data, id);
    var after := data[i := Entry(id, value)];
    ReplacedKeys(data, id, value);
    assert Distinct(after);
    if Has(data, k) {
      var p := Find(data, k);
      ValueIs(data, p);
      ValueIs(after, p);
    }
  }

  lemma TableReplaced(m: Map, after: Map, id: int, value: Pointer)
    requires after.removedIds == m.removedIds
    requires forall k :: Has(after.data, k) <==> Has(m.data, k)
    requires forall k :: Has(after.data, k) ==> ValueAt(after.data, k) == if k == id then value else ValueAt(m.data, k)
    ensures Table(after) == if id in Table(m) then Table(m)[id := value] else Table(m)
  {
    hide Has, ValueAt;
  }

  lemma ReplaceInTable(m: Map, owned: bool, id: int, value: Pointer)
    requires Sound(m)
    ensures Table(Step(m, owned, Replace(id, value))) == if id in Table(m) then Table(m)[id := value] else Table(m)
  {
    if Has(m.data, id) {
      var after := Step(m, owned, Replace(id, value));
      assert after == m.(data := m.data[Find(m.data, id) := Entry(id, value)]);
      forall k ensures (Has(after.data, k) <==> Has(m.data, k)) && (Has(after.data, k) ==> ValueAt(after.data, k) == if k == id then value else ValueAt(m.data, k)) {
        hide Has, ValueAt, Find, Step;
        ReplacedValue(m.data, id, value, k);
      }
      hide Has, ValueAt, Sound, Find, Step;
      TableReplaced(m, after, id, value);
    }
  }

  lemma TableLess(m: Map, after: Map, id: int)
    requires forall k :: (Has(after.data, k) && k !in after.removedIds) <==> (Has(m.data, k) && k !in m.removedIds && k != id)
    requires forall k :: Has(after.data, k) && k !in after.removedIds ==> ValueAt(after.data, k) == ValueAt(m.data, k)
    ensures Table(after) == Table(m) - {id}
  {
    hide Has, ValueAt;
  }

  lemma RemoveFromTable(m: Map, owned: bool, id: int)
    requires Sound(m)
    ensures Table(Step(m, owned, Remove(id))) == Table(m) - {id}
  {
    var after := Step(m, owned, Remove(id));
    if m.iterationDepth == 0 {
      assert m.removedIds == [];
      assert after.data == Erased(m.data, id) && after.removedIds == [];
      ErasedHas(m.data, id);
      hide Has, ValueAt, Find, Erased, Sound, Step;
      forall k | Has(m.data, k) && k != id ensures Has(Erased(m.data, id), k) && ValueAt(Erased(m.data, id), k) == ValueAt(m.data, k) {
        ValueAfterErase(m.data, id, k);
      }
      TableLess(m, after, id);
    } else {
      MarkedHas(m.removedIds, id);
      assert after.data == m.data;
      hide ValueAt, Find, Marked, Sound;
      TableLess(m, after, id);
    }
  }

  lemma ClearTable(m: Map, owned: bool)
    requires Sound(m)
    ensures Table(Step(m, owned, Clear)) == if m.iterationDepth > 0 || owned then map[] else Table(m)
  {
    AllMarkedHas(m.removedIds, m.data);
  }

  lemma {:induction false} UnmarkedValue(data: seq<Entry>, ids: seq<int>, k: int)
    requires Has(data, k) && k !in ids
    ensures Has(Unmarked(data, ids), k) && ValueAt(Unmarked(data, ids), k) == ValueAt(data, k)
  {
    var e, rest := data[0], data[1..];
    assert data == [e] + rest;
    var less := Unmarked(rest, ids);
    assert Unmarked(data, ids) == if e.key in ids then less else [e] + less;
    hide Has, ValueAt, Find, Unmarked;
    if e.key == k {
      ValueCons(e, rest, k);
      ValueCons(e, less, k);
    } else {
      HasTail(e, rest, k);
      UnmarkedValue(rest, ids, k);
      ValueCons(e, rest, k);
      if e.key !in ids {
        ValueCons(e, less, k);
      }
    }
  }

  lemma EndKeepsTable(m: Map, owned: bool)
    requires Sound(m) && m.iterationDepth > 0
    ensures Table(Step(m, owned, End)) == Table(m)
  {
    if m.iterationDepth == 1 {
      ReleasedInTurnIsUnmarked(m.(iterationDepth := 0), owned, m.removedIds);
      UnmarkedKeys(m.data, m.removedIds);
      forall k | Has(m.data, k) && k !in m.removedIds ensures ValueAt(Unmarked(m.data, m.removedIds), k) == ValueAt(m.data, k) {
        UnmarkedValue(m.data, m.removedIds, k);
      }
      hide Has, ValueAt, Unmarked, ReleasedInTurn, Sound;
    }
  }

  /**
   To its callers the map is a finite map from id to pointer: every operation does to the
   unmarked entries what it would do to such a map, whether iterators are live or not, and
   beginning and ending iterations does nothing.
   */
  lemma RefinesPlainMap(m: Map, owned: bool, op: Operation)
    requires Sound(m) && Allowed(m, op)
    ensures Table(Step(m, owned, op)) == PlainStep(Table(m), m, owned, op)
  {
    match op
    case Add(data, slot) => InsertIntoTable(m, slot, Entry(m.nextId, data), Step(m, owned, op));
    case AddWithID(data, id, slot) => InsertIntoTable(m, slot, Entry(id, data), Step(m, owned, op));
    case Remove(id) => RemoveFromTable(m, owned, id);
    case Replace(id, newData) => ReplaceInTable(m, owned, id, newData);
    case Clear => ClearTable(m, owned);
    case Begin => SameTable(m, Step(m, owned, Begin));
    case End => EndKeepsTable(m, owned);
  }

  // ----- a map object and any number of iterator objects -----

  /** Those in `left` have not moved on yet. */
  ghost function Partly(was: map<IteratorId, nat>, slot: nat, left: set<IteratorId>): map<IteratorId, nat> {
    map id | id in was :: if id !in left && was[id] >= slot then was[id] + 1 else was[id]
  }

  lemma PartlyMore(was: map<IteratorId, nat>, slot: nat, left: set<IteratorId>, id: IteratorId)
    requires id in left && left <= was.Keys
    ensures id in Partly(was, slot, left)
    ensures Partly(was, slot, left - {id})
      == Partly(was, slot, left)[id := var at := Partly(was, slot, left)[id]; if at >= slot then at + 1 else at]
  {
  }

  lemma PartlyEnds(was: map<IteratorId, nat>, slot: nat)
    ensures Partly(was, slot, was.Keys) == was && Partly(was, slot, {}) == Shifted(was, slot)
  {
  }

  class Client {
    const target: IDMap
    var iterators: map<IteratorId, Iterator>

    ghost function Places(): map<IteratorId, nat>
      reads this, iterators.Values
    {
      map id | id in iterators :: iterators[id].at
    }

    ghost function Snapshot(): Session
      reads this, target, iterators.Values
    {
      Session(target.State(), Places())
    }

    /** Each live iterator is an object of its own, on the one map. */
    ghost predicate Owned()
      reads this, iterators.Values
    {
      && (forall id <- iterators :: iterators[id].map_ == target)
      && (forall id, other :: id in iterators && other in iterators && id != other ==> iterators[id] != iterators[other])
    }

    constructor (owned: bool)
      ensures Owned() && target.owned == owned && fresh(target) && iterators == map[]
      ensures Snapshot() == Session(Map([], [], 0, 1, []), map[])
    {
      target := new IDMap(owned);
      iterators := map[];
    }

    lemma Facts(before: seq<Event>)
      requires Owned() && Good(Snapshot(), before)
      ensures target.Valid()
      ensures forall id <- iterators :: iterators[id].Valid()
    {
      SomeIterator(Places());
      hide LiveIn, Sound;
      assert forall id <- iterators :: Places()[id] == iterators[id].at;
    }

    /** An operation on the map. */
    method Operate(op: Operation)
      requires target.Valid() && !op.Begin? && !op.End? && Allowed(target.State(), op)
      modifies target
      ensures target.Valid() && target.State() == Step(old(target.State()), target.owned, op)
    {
      hide Step, Sound, Find;
      match op
      case Add(data, slot) => var id := target.Add(data, slot);
      case AddWithID(data, id, slot) => target.AddWithID(data, id, slot);
      case Remove(id) => target.Remove(id);
      case Replace(id, newData) => var existing := target.Replace(id, newData);
      case Clear => target.Clear();
    }

    method Change(op: Operation)
      requires Owned() && target.Valid() && Proper(Snapshot(), Event.Change(op))
      modifies target, iterators.Values
      ensures Owned() && target.Valid() && Snapshot() == SessionStep(old(Snapshot()), target.owned, Event.Change(op))
    {
      hide Step, Sound, Find;
      Operate(op);
      assert Places() == old(Places());
      if Adds(op) {
        Shift(op.slot);
      }
    }

    /** An iterator points at its entry, so its place in the order moves with it. */
    method Shift(slot: nat)
      requires Owned()
      modifies iterators.Values
      ensures Owned() && Places() == Shifted(old(Places()), slot)
    {
      ghost var was := Places();
      hide Places, Owned, Partly, Shifted;
      Known();
      PartlyEnds(was, slot);
      var left := iterators.Keys;
      while left != {}
        invariant left <= iterators.Keys && Owned() && Places() == Partly(was, slot, left)
        decreases |left|
      {
        var id :| id in left;
        PartlyMore(was, slot, left, id);
        MoveOn(id, slot);
        left := left - {id};
      }
    }

    lemma Known()
      ensures Places().Keys == iterators.Keys
    {
    }

    method MoveOn(id: IteratorId, slot: nat)
      requires Owned() && id in iterators
      modifies iterators.Values
      ensures Owned() && id in old(Places())
      ensures Places() == old(Places())[id := var at := old(Places())[id]; if at >= slot then at + 1 else at]
    {
      if iterators[id].at >= slot {
        iterators[id].at := iterators[id].at + 1;
      }
    }

    method Begin(id: IteratorId)
      requires Owned() && target.Valid() && id !in iterators
      modifies this, target
      ensures Owned() && target.Valid() && fresh(iterators.Values - old(iterators.Values))
      ensures Snapshot() == SessionStep(old(Snapshot()), target.owned, Start(id))
    {
      hide Step, Sound, SkipRemoved;
      var it := new Iterator(target);
      iterators := iterators[id := it];
      assert Places() == old(Places())[id := it.at];
    }

    method BeginCopy(id: IteratorId, from: IteratorId)
      requires Owned() && id !in iterators && from in iterators && iterators[from].Valid()
      modifies this, target
      ensures Owned() && target.Valid() && fresh(iterators.Values - old(iterators.Values))
      ensures Proper(old(Snapshot()), StartCopy(id, from))
      ensures Snapshot() == SessionStep(old(Snapshot()), target.owned, StartCopy(id, from))
    {
      hide Step, Sound, SkipRemoved;
      var it := new Iterator.Copy(iterators[from]);
      iterators := iterators[id := it];
      assert Places() == old(Places())[id := it.at];
    }

    method Advance(id: IteratorId)
      requires Owned() && id in iterators && iterators[id].Valid() && !iterators[id].IsAtEnd()
      modifies iterators.Values
      ensures Owned() && target.Valid() && Proper(old(Snapshot()), Forward(id))
      ensures Snapshot() == SessionStep(old(Snapshot()), target.owned, Forward(id))
    {
      hide Sound, SkipRemoved;
      iterators[id].Advance();
      assert Places() == old(Places())[id := iterators[id].at];
    }

    method End(id: IteratorId)
      requires Owned() && id in iterators && iterators[id].Valid()
      modifies this, target
      ensures Owned() && target.Valid() && iterators.Values <= old(iterators.Values)
      ensures Proper(old(Snapshot()), Finish(id))
      ensures Snapshot() == SessionStep(old(Snapshot()), target.owned, Finish(id))
    {
      hide Step, Sound;
      iterators[id].Destroy();
      assert Places() == old(Places());
      iterators := iterators - {id};
      assert Places() == old(Places()) - {id};
    }

    /** Any event, on the objects. */
    method Perform(e: Event, ghost before: seq<Event>)
      requires Owned() && Good(Snapshot(), before) && Proper(Snapshot(), e)
      modifies this, target, iterators.Values
      ensures Owned() && Snapshot() == SessionStep(old(Snapshot()), target.owned, e) && Good(Snapshot(), before + [e])
      ensures fresh(iterators.Values - old(iterators.Values))
    {
      hide Good, SessionStep, Sound, LiveIn;
      Facts(before);
      GoodStep(Snapshot(), target.owned, before, e);
      match e
      case Change(op) => Change(op);
      case Start(id) => Begin(id);
      case StartCopy(id, from) => BeginCopy(id, from);
      case Forward(id) => Advance(id);
      case Finish(id) => End(id);
    }
  }

  /** The set of the live iterators. */
  ghost predicate Live(events: seq<Event>, live: set<IteratorId>) {
    forall id: IteratorId :: id in live <==> LiveIn(events, id)
  }

  lemma LiveAtEnd(s: Session, before: seq<Event>)
    requires Good(s, before)
    ensures Live(before, s.iterators.Keys) && |s.iterators.Keys| == s.m.iterationDepth
  {
    hide LiveIn;
  }

  lemma GoodAtFirst()
    ensures Good(Session(Map([], [], 0, 1, []), map[]), [])
  {
  }

  /** A whole script of events on a new map object and its iterator objects. */
  method Play(owned: bool, events: seq<Event>) returns (data: seq<Entry>, depth: nat, deleted: seq<Pointer>)
    requires AllProper(Session(Map([], [], 0, 1, []), map[]), owned, events)
    ensures var m := RunSession(Session(Map([], [], 0, 1, []), map[]), owned, events).m;
      data == m.data && depth == m.iterationDepth && deleted == m.deleted
    ensures exists live: set<IteratorId> :: Live(events, live) && |live| == depth
  {
    hide Good, Proper, SessionStep, RunSession, AllProper, LiveIn;
    var client := new Client(owned);
    ghost var start := client.Snapshot();
    GoodAtFirst();
    assert events[0..] == events && events[..0] == [];
    for i := 0 to |events|
      invariant fresh(client) && fresh(client.target) && fresh(client.iterators.Values) && client.target.owned == owned
      invariant client.Owned() && Good(client.Snapshot(), events[..i])
      invariant AllProper(client.Snapshot(), owned, events[i..])
      invariant RunSession(client.Snapshot(), owned, events[i..]) == RunSession(start, owned, events)
    {
      RunStep(client.Snapshot(), owned, events[i..]);
      assert events[i..][0] == events[i] && events[i..][1..] == events[i + 1..] && events[..i + 1] == events[..i] + [events[i]];
      client.Perform(events[i], events[..i]);
    }
    assert events[..|events|] == events && events[|events|..] == [];
    RunNothing(client.Snapshot(), owned);
    LiveAtEnd(client.Snapshot(), events);
    hide *;
    data, depth, deleted := client.target.data, client.target.iterationDepth, client.target.deleted;
  }
}
