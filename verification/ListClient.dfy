/**
 base/observer_list.h in use: one list object and any number of iterator objects on it,
 called in any order.  What the objects return is what ReentrantIteration.dfy reasons about.
 */
module ListClient {
  import opened Sequences
  import opened Wrappers
  import opened ObserverList
  import opened ReentrantIteration

  class Client<T(==,!new)> {
    const list: ObserverListBase<T>
    var iterators: map<nat, Iterator<T>>

    /** The list is alive, no two names stand for one iterator, and the depth counts them. */
    ghost predicate Valid()
      reads this, list, iterators.Values
    {
      && list.alive && list.Valid()
      && list.notifyDepth == |iterators|
      && (forall id <- iterators :: iterators[id].list == list)
      && (forall i, j :: i in iterators && j in iterators && i != j ==> iterators[i] != iterators[j])
    }

    ghost function Cursors(): map<nat, Cursor>
      reads this, iterators.Values
    {
      map id | id in iterators :: Cursor(iterators[id].index, iterators[id].maxIndex)
    }

    ghost function Snapshot(): Concrete<T>
      reads this, list, iterators.Values
    {
      Concrete(list.observers, list.notifyDepth, list.kind, Cursors())
    }

    constructor (kind: NotificationType)
      ensures Valid() && fresh(list) && iterators == map[] && Snapshot() == NewList(kind)
    {
      list := new ObserverListBase(kind);
      iterators := map[];
    }

    /** One call on the list or on one of its iterators. */
    method Perform(op: Op<T>) returns (answer: Option<T>)
      requires Valid() && Allowed(iterators.Keys, op)
      modifies this, list, iterators.Values
      ensures Valid() && fresh(iterators.Values - old(iterators.Values))
      ensures (Snapshot(), answer) == Step(old(Snapshot()), op)
    {
      answer := None;
      match op
      case Add(obs) =>
        list.AddObserver(obs);
        assert Cursors() == old(Cursors());
      case Remove(obs) =>
        list.RemoveObserver(obs);
        assert Cursors() == old(Cursors());
      case Clear =>
        list.Clear();
        assert Cursors() == old(Cursors());
      case Has(obs) =>
        var found := list.HasObserver(obs);
        ContentsMember(list.observers, obs);
        answer := if found then Some(obs) else None;
      case Begin(id) => Begin(id);
      case GetNext(id) => answer := Next(id);
      case End(id) => End(id);
    }

    method Begin(id: nat)
      requires Valid() && id !in iterators
      modifies this, list
      ensures Valid() && fresh(iterators.Values - old(iterators.Values))
      ensures (Snapshot(), None) == Step(old(Snapshot()), Op.Begin(id))
    {
      var it := new Iterator(list);
      iterators := iterators[id := it];
      assert Cursors() == old(Cursors())[id := Cursor(0, it.maxIndex)];
    }

    method Next(id: nat) returns (answer: Option<T>)
      requires Valid() && id in iterators
      modifies iterators.Values
      ensures Valid()
      ensures (Snapshot(), answer) == Step(old(Snapshot()), GetNext(id))
    {
      answer := iterators[id].GetNext();
      assert Cursors() == old(Cursors())[id := Cursor(iterators[id].index, iterators[id].maxIndex)];
    }

    method End(id: nat)
      requires Valid() && id in iterators
      modifies this, list
      ensures Valid() && iterators.Values <= old(iterators.Values)
      ensures (Snapshot(), None) == Step(old(Snapshot()), Op.End(id))
    {
      EndStep(Snapshot(), id);
      hide Compacted, Contents, Distinct, NoNulls, Step;
      iterators[id].Destroy();
      assert Cursors() == old(Cursors());
      hide Cursors;
      Drop(id);
    }

    method Drop(id: nat)
      requires id in iterators
      modifies this
      ensures iterators == old(iterators) - {id} && |iterators| == |old(iterators)| - 1
      ensures iterators.Values <= old(iterators.Values) && Cursors() == old(Cursors()) - {id}
    {
      Fewer(iterators, id);
      iterators := iterators - {id};
    }
  }

  lemma EndStep<T>(c: Concrete<T>, id: nat)
    requires id in c.cursors && c.depth > 0
    ensures Step(c, End(id)) ==
      (c.(depth := c.depth - 1, cursors := c.cursors - {id}, slots := if c.depth == 1 then Compacted(c.slots) else c.slots), None)
  {
  }

  lemma Fewer<T(!new)>(iterators: map<nat, Iterator<T>>, id: nat)
    requires id in iterators
    ensures |iterators - {id}| == |iterators| - 1 && (iterators - {id}).Values <= iterators.Values
  {
    assert (iterators - {id}).Keys == iterators.Keys - {id};
    assert |(iterators - {id}).Keys| == |iterators.Keys| - 1;
  }

  /**
   Any script of calls on a new list: what the objects return is what the state machine
   returns, and so, by RunRefines, what some run of the registry returns.
   */
  method Play<T(==,!new)>(kind: NotificationType, ops: seq<Op<T>>) returns (answers: seq<Option<T>>)
    ensures answers == Answers(NewList(kind), ops)
    ensures exists states: seq<Registry<T>>, hits ::
      IsRun(states, ops, hits) && states[0] == NewRegistry(kind) && Explains(states, hits, answers)
  {
    var client := new Client(kind);
    answers := [];
    assert ops[0..] == ops;
    Empty(Answers(client.Snapshot(), ops));
    for i := 0 to |ops|
      invariant client.Valid() && fresh(client) && fresh(client.list) && fresh(client.iterators.Values)
      invariant client.iterators.Keys == client.Snapshot().cursors.Keys
      invariant answers + Answers(client.Snapshot(), ops[i..]) == Answers(NewList(kind), ops)
    {
      assert ops[i..][0] == ops[i] && ops[i..][1..] == ops[i + 1..];
      ghost var before := answers;
      var answer: Option<T> := None;
      hide Step;
      if Allowed(client.iterators.Keys, ops[i]) {
        answer := client.Perform(ops[i]);
      }
      answers := answers + [answer];
      Regroup(before, [answer], Answers(client.Snapshot(), ops[i + 1..]));
    }
    Empty(answers);
    ghost var states, hits := RunRefines(kind, ops);
  }
}
