/**
 The objects behind the state machine of base/observer_list_threadsafe.h: contexts, each with
 a list object of base/observer_list.h, and the iterator objects that notification loops hold.
 */
module ThreadSafeObjects {
  import opened Wrappers
  import opened ObserverList
  import opened ObserverListThreadSafe

  class ObserverListContext {
    const owner: ThreadId
    const born: nat
    const list: ObserverListBase<Observer>

    constructor (owner: ThreadId, born: nat, kind: NotificationType)
      ensures this.owner == owner && this.born == born && fresh(list)
      ensures list.Valid() && list.alive && list.kind == kind && list.observers == [] && list.notifyDepth == 0
    {
      this.owner, this.born := owner, born;
      list := new ObserverListBase(kind);
    }
  }

  /** A call in progress: NotifyWrapper's loop with its iterator, or any other point of the code. */
  datatype Call =
    | At(frame: Frame)
    | Loop(context: Address, it: Iterator<Observer>, calling: Option<Observer>)

  ghost function FrameOf(c: Call): Frame
    reads if c.Loop? then {c.it} else {}
  {
    match c
    case At(frame) => frame
    case Loop(context, it, calling) => Iterating(context, it.index, it.maxIndex, calling)
  }

  ghost function IteratorsOf(calls: seq<Call>): set<Iterator<Observer>> {
    set i | 0 <= i < |calls| && calls[i].Loop? :: calls[i].it
  }

  ghost function FramesOf(calls: seq<Call>): (frames: seq<Frame>)
    reads IteratorsOf(calls)
    ensures |frames| == |calls|
  {
    if calls == [] then []
    else
      var last := |calls| - 1;
      assert IteratorsOf(calls[..last]) <= IteratorsOf(calls);
      FramesOf(calls[..last]) + [FrameOf(calls[last])]
  }

  /** A loop's iterator is on its context's list. */
  ghost predicate Fits(contexts: map<Address, ObserverListContext>, c: Call) {
    match c
    case At(frame) => !frame.Iterating?
    case Loop(context, it, _) => context in contexts ==> it.list == contexts[context].list
  }

  /** No iterator belongs to two calls of one stack. */
  ghost predicate StackOwned(contexts: map<Address, ObserverListContext>, calls: seq<Call>) {
    && (forall i, j :: 0 <= i < j < |calls| && calls[i].Loop? && calls[j].Loop? ==> calls[i].it != calls[j].it)
    && (forall i :: 0 <= i < |calls| ==> Fits(contexts, calls[i]))
  }

  /** Nor do two threads share one. */
  ghost predicate CallsOwned(contexts: map<Address, ObserverListContext>, calls: map<ThreadId, seq<Call>>) {
    && (forall t <- calls :: StackOwned(contexts, calls[t]))
    && (forall t, u :: t in calls && u in calls && t != u ==> IteratorsOf(calls[t]) !! IteratorsOf(calls[u]))
  }

  ghost predicate ListsOwned(contexts: map<Address, ObserverListContext>) {
    forall c, d :: c in contexts && d in contexts && c != d ==> contexts[c].list != contexts[d].list
  }

  ghost function ListsOf(contexts: map<Address, ObserverListContext>): set<ObserverListBase<Observer>> {
    set c | c in contexts :: contexts[c].list
  }

  ghost function HeapOf(contexts: map<Address, ObserverListContext>): (heap: map<Address, Context>)
    reads ListsOf(contexts)
    ensures heap.Keys == contexts.Keys
  {
    map c | c in contexts ::
      Context(contexts[c].owner, contexts[c].born, contexts[c].list.observers, contexts[c].list.notifyDepth)
  }

  ghost predicate ListsValid(contexts: map<Address, ObserverListContext>, kind: NotificationType)
    reads ListsOf(contexts)
  {
    forall c <- contexts :: contexts[c].list.alive && contexts[c].list.Valid() && contexts[c].list.kind == kind
  }

  ghost function AllIterators(calls: map<ThreadId, seq<Call>>): set<Iterator<Observer>> {
    set t, it | t in calls && it in IteratorsOf(calls[t]) :: it
  }

  function StackIn(calls: map<ThreadId, seq<Call>>, t: ThreadId): seq<Call> {
    if t in calls then calls[t] else []
  }

  ghost function FrameStacks(calls: map<ThreadId, seq<Call>>): map<ThreadId, seq<Frame>>
    reads AllIterators(calls)
  {
    map t | t in calls :: FramesOf(calls[t])
  }

  ghost predicate NoCallOn(calls: map<ThreadId, seq<Call>>, c: Address) {
    forall t, i :: t in calls && 0 <= i < |calls[t]| && calls[t][i].Loop? ==> calls[t][i].context != c
  }

  /** What InClientCode says of the frames. */
  predicate MayCall(calls: seq<Call>) {
    calls == [] || (calls[|calls| - 1].Loop? && calls[|calls| - 1].calling.Some?)
  }

  lemma {:induction false} FramesAt(calls: seq<Call>, i: nat)
    requires i < |calls|
    ensures FramesOf(calls)[i] == FrameOf(calls[i])
  {
    var last := |calls| - 1;
    if i < last {
      FramesAt(calls[..last], i);
    }
  }

  // ----- stacks with a call more or less -----

  lemma Pushed(contexts: map<Address, ObserverListContext>, calls: seq<Call>, c: Call)
    requires StackOwned(contexts, calls)
    requires Fits(contexts, c) && (c.Loop? ==> c.it !in IteratorsOf(calls))
    ensures FramesOf(calls + [c]) == FramesOf(calls) + [FrameOf(c)]
    ensures IteratorsOf(calls + [c]) == IteratorsOf(calls) + if c.Loop? then {c.it} else {}
    ensures StackOwned(contexts, calls + [c])
  {
    var all := calls + [c];
    assert all[..|calls|] == calls && all[|calls|] == c;
    assert forall i :: 0 <= i < |calls| ==> all[i] == calls[i];
  }

  lemma Popped(contexts: map<Address, ObserverListContext>, calls: seq<Call>)
    requires calls != [] && StackOwned(contexts, calls)
    ensures var rest := calls[..|calls| - 1];
      && FramesOf(calls) == FramesOf(rest) + [FrameOf(calls[|calls| - 1])]
      && IteratorsOf(rest) <= IteratorsOf(calls) && StackOwned(contexts, rest)
      && (calls[|calls| - 1].Loop? ==> calls[|calls| - 1].it !in IteratorsOf(rest) && calls[|calls| - 1].it in IteratorsOf(calls))
  {
  }

  /** One thread's stack is replaced by one whose iterators were its own or are nobody's. */
  lemma OtherStack(contexts: map<Address, ObserverListContext>, calls: map<ThreadId, seq<Call>>, t: ThreadId, stack: seq<Call>)
    requires CallsOwned(contexts, calls) && StackOwned(contexts, stack)
    requires forall it <- IteratorsOf(stack) :: it in IteratorsOf(StackIn(calls, t)) || it !in AllIterators(calls)
    ensures CallsOwned(contexts, calls[t := stack])
    ensures AllIterators(calls[t := stack]) <= AllIterators(calls) + IteratorsOf(stack)
    ensures FrameStacks(calls[t := stack]) == FrameStacks(calls)[t := FramesOf(stack)]
  {
    hide FramesOf, StackOwned, IteratorsOf, CallsOwned;
    OthersApart(contexts, calls, t, stack);
    StillOwned(contexts, calls, t, stack);
  }

  lemma OthersApart(contexts: map<Address, ObserverListContext>, calls: map<ThreadId, seq<Call>>, t: ThreadId, stack: seq<Call>)
    requires CallsOwned(contexts, calls)
    requires forall it <- IteratorsOf(stack) :: it in IteratorsOf(StackIn(calls, t)) || it !in AllIterators(calls)
    ensures forall u | u in calls && u != t :: IteratorsOf(stack) !! IteratorsOf(calls[u])
  {
    hide StackOwned;
    forall u | u in calls && u != t ensures IteratorsOf(stack) !! IteratorsOf(calls[u]) {
      forall it | it in IteratorsOf(stack) ensures it !in IteratorsOf(calls[u]) {
        assert it in IteratorsOf(calls[u]) ==> it in AllIterators(calls);
      }
    }
  }

  lemma StillOwned(contexts: map<Address, ObserverListContext>, calls: map<ThreadId, seq<Call>>, t: ThreadId, stack: seq<Call>)
    requires CallsOwned(contexts, calls) && StackOwned(contexts, stack)
    requires forall u | u in calls && u != t :: IteratorsOf(stack) !! IteratorsOf(calls[u])
    ensures CallsOwned(contexts, calls[t := stack])
  {
    hide StackOwned, IteratorsOf;
    var after := calls[t := stack];
    forall u, v | u in after && v in after && u != v ensures IteratorsOf(after[u]) !! IteratorsOf(after[v]) {
      assert u != t ==> u in calls && after[u] == calls[u];
      assert v != t ==> v in calls && after[v] == calls[v];
    }
  }

  function TopCall(calls: map<ThreadId, seq<Call>>, t: ThreadId): Call
    requires StackIn(calls, t) != []
  {
    StackIn(calls, t)[|StackIn(calls, t)| - 1]
  }

  lemma StackOfCalls(contexts: map<Address, ObserverListContext>, calls: map<ThreadId, seq<Call>>, t: ThreadId)
    requires CallsOwned(contexts, calls)
    ensures StackOwned(contexts, StackIn(calls, t))
    ensures t in FrameStacks(calls) <==> t in calls
    ensures FramesOf(StackIn(calls, t)) == if t in calls then FrameStacks(calls)[t] else []
    ensures IteratorsOf(StackIn(calls, t)) <= AllIterators(calls)
  {
    assert t !in calls ==> IteratorsOf([]) == {};
  }

  /** The iterator of the call on top is in no other call. */
  lemma OffStack(contexts: map<Address, ObserverListContext>, calls: map<ThreadId, seq<Call>>, t: ThreadId)
    requires CallsOwned(contexts, calls) && StackIn(calls, t) != [] && TopCall(calls, t).Loop?
    ensures var stack := StackIn(calls, t); var it := TopCall(calls, t).it;
      it in AllIterators(calls) && it !in AllIterators(calls[t := stack[..|stack| - 1]])
  {
    Popped(contexts, calls[t]);
  }

  // ----- a context more or less -----

  lemma CallsStillFit(contexts: map<Address, ObserverListContext>, calls: map<ThreadId, seq<Call>>, storage: Address, context: ObserverListContext)
    requires CallsOwned(contexts, calls) && storage !in contexts && NoCallOn(calls, storage)
    ensures CallsOwned(contexts[storage := context], calls)
  {
    hide IteratorsOf;
  }

  lemma OneMore(contexts: map<Address, ObserverListContext>, calls: map<ThreadId, seq<Call>>, kind: NotificationType,
                storage: Address, context: ObserverListContext)
    requires ListsValid(contexts, kind) && ListsOwned(contexts) && CallsOwned(contexts, calls)
    requires storage !in contexts && NoCallOn(calls, storage) && context.list !in ListsOf(contexts)
    requires context.list.alive && context.list.Valid() && context.list.kind == kind
    ensures var after := contexts[storage := context];
      && ListsValid(after, kind) && ListsOwned(after) && CallsOwned(after, calls)
      && ListsOf(after) == ListsOf(contexts) + {context.list}
      && HeapOf(after) == HeapOf(contexts)[storage :=
           Context(context.owner, context.born, context.list.observers, context.list.notifyDepth)]
  {
    hide IteratorsOf, StackOwned, CallsOwned, NoCallOn;
    CallsStillFit(contexts, calls, storage, context);
    var after := contexts[storage := context];
    assert after[storage].list in ListsOf(after);
    assert forall c <- contexts :: contexts[c].list in ListsOf(contexts) && after[c] == contexts[c] && after[c].list in ListsOf(after);
  }

  lemma OneLess(contexts: map<Address, ObserverListContext>, calls: map<ThreadId, seq<Call>>, kind: NotificationType, c: Address)
    requires ListsValid(contexts, kind) && ListsOwned(contexts) && CallsOwned(contexts, calls)
    ensures var after := contexts - {c};
      && ListsValid(after, kind) && ListsOwned(after) && CallsOwned(after, calls)
      && ListsOf(after) <= ListsOf(contexts) && HeapOf(after) == HeapOf(contexts) - {c}
      && (c in contexts ==> contexts[c].list !in ListsOf(after))
  {
    hide IteratorsOf;
  }
}
