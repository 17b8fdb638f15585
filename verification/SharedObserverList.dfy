/**
 base/observer_list_threadsafe.h: the steps of the state machine, carried out in place.  The
 map leads to context objects, each with a list object of base/observer_list.h, and a
 notification loop holds an iterator object.  One method is what one thread does between
 two points where another may intervene.
 */
module SharedObserverList {
  import opened Sequences
  import opened Wrappers
  import opened ObserverList
  import opened ObserverListThreadSafe
  import opened ThreadSafeObjects
  import opened NotificationHistory

  class SharedList {
    const kind: NotificationType
    var contexts: map<Address, ObserverListContext>
    var births: nat
    var used: set<Address>
    var lists: map<ThreadId, Address>
    var calls: map<ThreadId, seq<Call>>
    var tasks: multiset<Task>
    var looping: set<ThreadId>
    var registered: set<(ThreadId, Observer)>

    ghost function Snapshot(): State
      reads this, ListsOf(contexts), AllIterators(calls)
    {
      State(kind, HeapOf(contexts), births, used, lists, FrameStacks(calls), tasks, looping, registered)
    }

    ghost predicate Owned()
      reads this, ListsOf(contexts)
    {
      ListsValid(contexts, kind) && ListsOwned(contexts) && CallsOwned(contexts, calls)
    }

    constructor (kind: NotificationType)
      ensures Owned() && Snapshot() == Initial(kind) && contexts == map[] && calls == map[]
    {
      this.kind := kind;
      contexts, births, used, lists, calls := map[], 0, {}, map[], map[];
      tasks, looping, registered := multiset{}, {}, {};
    }

    /** The shared fields are part of no list and no iterator. */
    lemma Apart()
      ensures forall it <- AllIterators(calls) :: it as object != this
      ensures forall list <- ListsOf(contexts) :: list as object != this
    {
    }

    lemma Allocated()
      ensures forall it <- AllIterators(calls) :: allocated(it)
      ensures forall list <- ListsOf(contexts) :: allocated(list)
    {
    }

    // ----- the stacks -----

    method SetStack(t: ThreadId, stack: seq<Call>)
      requires Owned() && StackOwned(contexts, stack)
      requires forall it <- IteratorsOf(stack) :: it in IteratorsOf(StackIn(calls, t)) || it !in AllIterators(calls)
      modifies this`calls
      ensures calls == old(calls)[t := stack] && Owned() && AllIterators(calls) <= old(AllIterators(calls)) + IteratorsOf(stack)
      ensures var s := old(Snapshot()); Snapshot() == s.(stacks := s.stacks[t := old(FramesOf(stack))])
    {
      hide FramesOf, IteratorsOf, StackOwned, CallsOwned, FrameStacks, AllIterators, HeapOf, ListsOf, ListsValid,
        ListsOwned;
      Apart();
      OtherStack(contexts, calls, t, stack);
      calls := calls[t := stack];
      assert FrameStacks(calls) == old(FrameStacks(calls))[t := old(FramesOf(stack))];
    }

    method Enter(t: ThreadId, c: Call)
      requires Owned() && Fits(contexts, c) && (c.Loop? ==> c.it !in AllIterators(calls))
      modifies this`calls
      ensures Owned() && AllIterators(calls) <= old(AllIterators(calls)) + if c.Loop? then {c.it} else {}
      ensures calls == old(calls)[t := old(StackIn(calls, t)) + [c]]
      ensures Snapshot() == Push(old(Snapshot()), t, FrameOf(c))
    {
      hide FramesOf, IteratorsOf, StackOwned, CallsOwned, FrameStacks, AllIterators, HeapOf, ListsOf, ListsValid,
        ListsOwned, FrameOf;
      var stack := StackIn(calls, t);
      StackOfCalls(contexts, calls, t);
      Pushed(contexts, stack, c);
      SetStack(t, stack + [c]);
    }

    method Return(t: ThreadId)
      requires Owned() && StackIn(calls, t) != []
      modifies this`calls
      ensures Owned() && AllIterators(calls) <= old(AllIterators(calls))
      ensures var top := old(TopCall(calls, t)); top.Loop? ==> top.it !in AllIterators(calls) && top.it in old(AllIterators(calls))
      ensures Stack(old(Snapshot()), t) != [] && Snapshot() == Pop(old(Snapshot()), t)
    {
      hide FramesOf, IteratorsOf, StackOwned, CallsOwned, FrameStacks, AllIterators, HeapOf, ListsOf, ListsValid,
        ListsOwned;
      var stack := StackIn(calls, t);
      StackOfCalls(contexts, calls, t);
      if TopCall(calls, t).Loop? {
        OffStack(contexts, calls, t);
      }
      Popped(contexts, stack);
      SetStack(t, stack[..|stack| - 1]);
    }

    /** The call on top goes on to another point. */
    method Continue(t: ThreadId, c: Call)
      requires Owned() && StackIn(calls, t) != [] && Fits(contexts, c)
      requires c.Loop? ==> c.it !in AllIterators(calls) || (TopCall(calls, t).Loop? && TopCall(calls, t).it == c.it)
      modifies this`calls
      ensures Owned() && AllIterators(calls) <= old(AllIterators(calls)) + if c.Loop? then {c.it} else {}
      ensures Stack(old(Snapshot()), t) != [] && Snapshot() == Goto(old(Snapshot()), t, FrameOf(c))
    {
      hide FramesOf, IteratorsOf, StackOwned, CallsOwned, FrameStacks, AllIterators, HeapOf, ListsOf, ListsValid,
        ListsOwned;
      var stack := StackIn(calls, t);
      StackOfCalls(contexts, calls, t);
      Popped(contexts, stack);
      var rest := stack[..|stack| - 1];
      Pushed(contexts, rest, c);
      SetStack(t, rest + [c]);
    }

    // ----- the lists -----

    /** A context's list changed, and the other lists did not. */
    twostate lemma ListChanged(c: Address)
      requires old(Owned()) && c in contexts && contexts == old(contexts) && calls == old(calls)
      requires forall d <- contexts :: d != c ==> unchanged(contexts[d].list)
      requires contexts[c].list.Valid() && contexts[c].list.alive
      ensures Owned()
      ensures HeapOf(contexts) == old(HeapOf(contexts))[c :=
        Context(contexts[c].owner, contexts[c].born, contexts[c].list.observers, contexts[c].list.notifyDepth)]
      ensures c in old(HeapOf(contexts))
      ensures old(HeapOf(contexts))[c] ==
        Context(contexts[c].owner, contexts[c].born, old(contexts[c].list.observers), old(contexts[c].list.notifyDepth))
    {
    }

    /** Lists are not iterators. */
    lemma ListsApart(c: Address)
      requires c in contexts
      ensures forall it <- AllIterators(calls) :: it as object != contexts[c].list
      ensures contexts[c].list in ListsOf(contexts) && (Owned() ==> contexts[c].list.alive)
    {
    }

    lemma ListsNotIterator(it: Iterator<Observer>)
      ensures forall list <- ListsOf(contexts) :: list as object != it
      ensures it as object != this
      ensures Owned() ==> forall c <- contexts :: contexts[c].list.Valid() && contexts[c].list.alive
    {
    }

    method AddTo(c: Address, obs: Observer)
      requires Owned() && c in contexts
      modifies contexts[c].list
      ensures Owned()
      ensures var k := old(Snapshot()).heap[c]; Snapshot() == Store(old(Snapshot()), c, k.(slots := Added(k.slots, obs)))
    {
      ListsApart(c);
      contexts[c].list.AddObserver(obs);
      assert forall it <- AllIterators(calls) :: unchanged(it);
      ListChanged(c);
    }

    method RemoveFrom(c: Address, obs: Observer)
      requires Owned() && c in contexts
      modifies contexts[c].list
      ensures Owned()
      ensures var k := old(Snapshot()).heap[c];
        Snapshot() == Store(old(Snapshot()), c, k.(slots := ObserverList.Removed(k.slots, k.depth > 0, obs)))
    {
      ListsApart(c);
      contexts[c].list.RemoveObserver(obs);
      assert forall it <- AllIterators(calls) :: unchanged(it);
      ListChanged(c);
    }

    method BeginOn(c: Address) returns (it: Iterator<Observer>)
      requires Owned() && c in contexts
      modifies contexts[c].list
      ensures Owned() && fresh(it) && it.list == contexts[c].list && it.index == 0
      ensures var k := old(Snapshot()).heap[c];
        && Snapshot() == Store(old(Snapshot()), c, k.(depth := k.depth + 1))
        && it.maxIndex == if kind == NotifyAll then None else Some(|k.slots|)
    {
      ListsApart(c);
      it := new Iterator(contexts[c].list);
      assert forall i <- AllIterators(calls) :: unchanged(i);
      ListChanged(c);
    }

    method EndOn(c: Address, it: Iterator<Observer>)
      requires Owned() && c in contexts && it.list == contexts[c].list && contexts[c].list.notifyDepth > 0
      modifies contexts[c].list
      ensures Owned()
      ensures var k := old(Snapshot()).heap[c];
        Snapshot() == Store(old(Snapshot()), c,
          k.(depth := k.depth - 1, slots := if k.depth == 1 then Compacted(k.slots) else k.slots))
    {
      ListsApart(c);
      it.Destroy();
      assert forall i <- AllIterators(calls) :: unchanged(i);
      ListChanged(c);
    }

    /** A context is put where no call in progress has one. */
    method Install(storage: Address, context: ObserverListContext)
      requires Owned() && storage !in contexts && NoCallOn(calls, storage) && context.list !in ListsOf(contexts)
      requires context.list.alive && context.list.Valid() && context.list.kind == kind
      modifies this`contexts
      ensures Owned() && contexts == old(contexts)[storage := context]
      ensures ListsOf(contexts) == old(ListsOf(contexts)) + {context.list}
      ensures Snapshot() == Store(old(Snapshot()), storage,
        Context(context.owner, context.born, context.list.observers, context.list.notifyDepth))
    {
      hide HeapOf, ListsOf, ListsValid, ListsOwned, CallsOwned, FrameStacks, AllIterators, NoCallOn;
      Apart();
      OneMore(contexts, calls, kind, storage, context);
      contexts := contexts[storage := context];
      assert FrameStacks(calls) == old(FrameStacks(calls));
    }

    method Record(t: ThreadId, storage: Address)
      requires Owned()
      modifies this`births, this`used, this`lists
      ensures Owned() && lists == old(lists)[t := storage]
      ensures Snapshot() ==
        old(Snapshot()).(births := old(births) + 1, used := old(used) + {storage}, lists := old(lists)[t := storage])
    {
      hide HeapOf, ListsOf, ListsValid, ListsOwned, CallsOwned, FrameStacks, AllIterators;
      Apart();
      births, used, lists := births + 1, used + {storage}, lists[t := storage];
    }

    method NewContext(t: ThreadId, storage: Address)
      requires Owned() && storage !in contexts && NoCallOn(calls, storage)
      modifies this
      ensures Owned() && calls == old(calls) && lists == old(lists)[t := storage] && storage in contexts
      ensures fresh(ListsOf(contexts) - old(ListsOf(contexts)))
      ensures Snapshot() == Store(old(Snapshot()), storage, Context(t, old(births), [], 0)).(
        births := old(births) + 1, used := old(used) + {storage}, lists := old(lists)[t := storage])
    {
      hide HeapOf, ListsOf, ListsValid, ListsOwned, CallsOwned, FrameStacks, AllIterators, NoCallOn;
      Allocated();
      var context := new ObserverListContext(t, births, kind);
      Install(storage, context);
      Record(t, storage);
    }

    /** The context's destructor. */
    method Free(c: Address)
      requires Owned() && c in contexts
      modifies this`contexts, contexts[c].list
      ensures Owned() && contexts == old(contexts) - {c} && ListsOf(contexts) <= old(ListsOf(contexts))
      ensures Snapshot() == old(Snapshot()).(heap := old(Snapshot()).heap - {c})
    {
      hide HeapOf, ListsOf, ListsValid, ListsOwned, CallsOwned, FrameStacks, AllIterators;
      Apart();
      Allocated();
      ListsApart(c);
      OneLess(contexts, calls, kind, c);
      var list := contexts[c].list;
      contexts := contexts - {c};
      list.Destroy();
    }

    // ----- the calls -----

    /** AddObserver with the lock held; `storage` is what operator new would return. */
    method AddObserver(t: ThreadId, obs: Observer, storage: Address)
      requires Owned() && (storage in contexts || NoCallOn(calls, storage))
      modifies this
      ensures Owned() && fresh(ListsOf(contexts) - old(ListsOf(contexts))) && AllIterators(calls) <= old(AllIterators(calls))
      ensures DoCallAdd(old(Snapshot()), t, obs, storage) == Next(Snapshot())
    {
      hide HeapOf, ListsOf, ListsValid, ListsOwned, CallsOwned, FrameStacks, AllIterators, NoCallOn;
      if t !in looping {
        return;
      }
      if t !in lists {
        if storage in contexts {
          return; // no allocator returns memory in use
        }
        NewContext(t, storage);
      }
      Enter(t, At(Adding(lists[t], obs)));
    }

    lemma HeapAt(c: Address)
      requires c in contexts
      ensures HeapOf(contexts)[c] ==
        Context(contexts[c].owner, contexts[c].born, contexts[c].list.observers, contexts[c].list.notifyDepth)
    {
    }

    method SetRegistered(all: set<(ThreadId, Observer)>)
      requires Owned()
      modifies this`registered
      ensures Owned() && registered == all && Snapshot() == old(Snapshot()).(registered := all)
    {
      hide HeapOf, ListsOf, ListsValid, ListsOwned, CallsOwned, FrameStacks, AllIterators, FramesOf, IteratorsOf,
        StackOwned;
      Apart();
      registered := all;
    }

    method SetLists(all: map<ThreadId, Address>)
      requires Owned()
      modifies this`lists
      ensures Owned() && lists == all && Snapshot() == old(Snapshot()).(lists := all)
    {
      hide HeapOf, ListsOf, ListsValid, ListsOwned, CallsOwned, FrameStacks, AllIterators, FramesOf, IteratorsOf,
        StackOwned;
      Apart();
      lists := all;
    }

    method SetTasks(all: multiset<Task>)
      requires Owned()
      modifies this`tasks
      ensures Owned() && tasks == all && Snapshot() == old(Snapshot()).(tasks := all)
    {
      hide HeapOf, ListsOf, ListsValid, ListsOwned, CallsOwned, FrameStacks, AllIterators, FramesOf, IteratorsOf,
        StackOwned;
      Apart();
      tasks := all;
    }

    method SetLooping(all: set<ThreadId>)
      requires Owned()
      modifies this`looping
      ensures Owned() && looping == all && Snapshot() == old(Snapshot()).(looping := all)
    {
      hide HeapOf, ListsOf, ListsValid, ListsOwned, CallsOwned, FrameStacks, AllIterators, FramesOf, IteratorsOf,
        StackOwned;
      Apart();
      looping := all;
    }

    /** RemoveObserver with the lock held. */
    method RemoveObserver(t: ThreadId, obs: Observer)
      requires Owned() && (t in lists ==> lists[t] in contexts)
      modifies this
      ensures Owned() && contexts == old(contexts) && AllIterators(calls) <= old(AllIterators(calls))
      ensures DoCallRemove(old(Snapshot()), t, obs) == Next(Snapshot())
      ensures t in old(lists) ==>
        var slots := old(contexts[lists[t]].list.observers);
        && lists == (if Some(obs) in slots && |slots| == 1 then old(lists) - {t} else old(lists))
        && calls == old(calls)[t := old(StackIn(calls, t)) + [At(Removing(old(lists[t]), obs))]]
      ensures t !in old(lists) ==> lists == old(lists) && calls == old(calls)
    {
      hide HeapOf, ListsOf, ListsValid, ListsOwned, CallsOwned, FrameStacks, AllIterators, FramesOf, IteratorsOf,
        StackOwned;
      SetRegistered(registered - {(t, obs)});
      if t !in lists {
        return;
      }
      var c := lists[t];
      HeapAt(c);
      Allocated();
      var last := HoldsOnly(c, obs);
      if last {
        SetLists(lists - {t});
      }
      Enter(t, At(Removing(c, obs)));
    }

    method HoldsOnly(c: Address, obs: Observer) returns (last: bool)
      requires Owned() && c in contexts
      ensures var slots := contexts[c].list.observers; last <==> Some(obs) in slots && |slots| == 1
    {
      var list := contexts[c].list;
      ContentsMember(list.observers, obs);
      last := list.HasObserver(obs);
      last := last && |list.observers| == 1;
    }

    function TaskFor(t: ThreadId): Task
      requires t in lists && lists[t] in contexts
      reads this
    {
      Task(contexts[lists[t]].owner, lists[t], contexts[lists[t]].born)
    }

    lemma PostedIs(posted: set<Task>)
      requires Owned() && forall t <- lists :: lists[t] in contexts && contexts[lists[t]].owner == t
      requires forall task: Task :: task in posted <==> task.thread in lists && task == TaskFor(task.thread)
      ensures DoNotify(Snapshot()) == Next(Snapshot().(tasks := tasks + multiset(posted)))
    {
      forall t <- lists
        ensures lists[t] in HeapOf(contexts) && HeapOf(contexts)[lists[t]].owner == TaskFor(t).thread && HeapOf(contexts)[lists[t]].born == TaskFor(t).born
      {
        HeapAt(lists[t]);
      }
      hide HeapOf, ListsOf, ListsValid, ListsOwned, CallsOwned, FrameStacks, AllIterators, FramesOf, IteratorsOf,
        StackOwned;
      assert posted == set t | t in lists :: var k := HeapOf(contexts)[lists[t]]; Task(k.owner, lists[t], k.born);
    }

    /** Notify: one task for each entry of the map. */
    method Notify()
      requires Owned() && forall t <- lists :: lists[t] in contexts && contexts[lists[t]].owner == t
      modifies this`tasks
      ensures Owned()
      ensures DoNotify(old(Snapshot())) == Next(Snapshot())
      ensures forall task: Task ::
        tasks[task] == old(tasks)[task] + (if task.thread in lists && task == TaskFor(task.thread) then 1 else 0)
    {
      hide HeapOf, ListsOf, ListsValid, ListsOwned, CallsOwned, FrameStacks, AllIterators, FramesOf, IteratorsOf,
        StackOwned, DoNotify, Owned;
      // The tasks reach their queues in one go, since the lock is held.
      var left, posts := lists.Keys, multiset{};
      ghost var posted: set<Task> := {};
      while left != {}
        invariant left <= lists.Keys && posts == multiset(posted)
        invariant forall task :: task in posted <==> task.thread in lists.Keys - left && task == TaskFor(task.thread)
        decreases |left|
      {
        var t :| t in left;
        assert multiset(posted + {TaskFor(t)}) == multiset(posted) + multiset{TaskFor(t)};
        posts := posts + multiset{TaskFor(t)};
        posted := posted + {TaskFor(t)};
        left := left - {t};
      }
      PostedIs(posted);
      CountPosted(tasks, posted);
      SetTasks(tasks + posts);
    }

    /** The call on top of a thread's stack, as the state machine has it. */
    lemma TopIs(t: ThreadId)
      requires Owned() && StackIn(calls, t) != []
      ensures var stack := Stack(Snapshot(), t); stack != [] && stack[|stack| - 1] == FrameOf(TopCall(calls, t))
      ensures Fits(contexts, TopCall(calls, t))
      ensures TopCall(calls, t).Loop? ==> TopCall(calls, t).it in AllIterators(calls)
    {
      StackOfCalls(contexts, calls, t);
      Popped(contexts, StackIn(calls, t));
    }

    /** The rest of the call on top of a thread's stack. */
    method AddToList(t: ThreadId, c: Address, obs: Observer)
      requires Owned() && StackIn(calls, t) != [] && TopCall(calls, t) == At(Adding(c, obs)) && c in contexts
      modifies this, contexts[c].list
      ensures Owned() && contexts == old(contexts) && AllIterators(calls) <= old(AllIterators(calls))
      ensures Stack(old(Snapshot()), t) != []
      ensures DoAddToList(old(Snapshot()), t, c, obs) == Next(Snapshot())
    {
      hide HeapOf, ListsOf, ListsValid, ListsOwned, CallsOwned, FrameStacks, AllIterators, FramesOf, IteratorsOf,
        StackOwned, Pop, Goto, Store;
      TopIs(t);
      AddTo(c, obs);
      SetRegistered(registered + {(t, obs)});
      Return(t);
    }

    method RemoveFromList(t: ThreadId, c: Address, obs: Observer)
      requires Owned() && StackIn(calls, t) != [] && TopCall(calls, t) == At(Removing(c, obs)) && c in contexts
      modifies this, contexts[c].list
      ensures Owned() && contexts == old(contexts) && AllIterators(calls) <= old(AllIterators(calls))
      ensures Stack(old(Snapshot()), t) != []
      ensures DoRemoveFromList(old(Snapshot()), t, c, obs) == Next(Snapshot())
    {
      hide HeapOf, ListsOf, ListsValid, ListsOwned, CallsOwned, FrameStacks, AllIterators, FramesOf, IteratorsOf,
        StackOwned, Pop, Goto, Store;
      TopIs(t);
      RemoveFrom(c, obs);
      Continue(t, At(AfterRemove(c)));
    }

    /** if (list->size() == 0) delete context; */
    method FinishRemove(t: ThreadId, c: Address)
      requires Owned() && StackIn(calls, t) != [] && TopCall(calls, t) == At(AfterRemove(c)) && c in contexts
      modifies this, contexts[c].list
      ensures Owned() && ListsOf(contexts) <= old(ListsOf(contexts)) && AllIterators(calls) <= old(AllIterators(calls))
      ensures Stack(old(Snapshot()), t) != []
      ensures DoFinishRemove(old(Snapshot()), t, c) == Next(Snapshot())
    {
      hide HeapOf, ListsOf, ListsValid, ListsOwned, CallsOwned, FrameStacks, AllIterators, FramesOf, IteratorsOf,
        StackOwned, Pop, Goto, Store;
      TopIs(t);
      HeapAt(c);
      if |contexts[c].list.observers| == 0 {
        Free(c);
      }
      Return(t);
    }

    /** NotifyWrapper up to the end of its first critical section. */
    method RunTask(task: Task)
      requires Owned() && task in tasks
      modifies this
      ensures Owned() && contexts == old(contexts) && AllIterators(calls) <= old(AllIterators(calls))
      ensures DoRunTask(old(Snapshot()), task) == Next(Snapshot())
    {
      hide HeapOf, ListsOf, ListsValid, ListsOwned, CallsOwned, FrameStacks, AllIterators, FramesOf, IteratorsOf,
        StackOwned;
      SetTasks(tasks - multiset{task});
      if task.thread in lists && lists[task.thread] == task.context {
        Enter(task.thread, At(Entering(task.context)));
      }
    }

    method BeginIteration(t: ThreadId, c: Address)
      requires Owned() && StackIn(calls, t) != [] && TopCall(calls, t) == At(Entering(c)) && c in contexts
      modifies this, contexts[c].list
      ensures Owned() && contexts == old(contexts) && fresh(AllIterators(calls) - old(AllIterators(calls)))
      ensures Stack(old(Snapshot()), t) != []
      ensures DoBeginIteration(old(Snapshot()), t, c) == Next(Snapshot())
    {
      hide HeapOf, ListsOf, ListsValid, ListsOwned, CallsOwned, FrameStacks, AllIterators, FramesOf, IteratorsOf,
        StackOwned, Pop, Goto, Store;
      TopIs(t);
      Allocated();
      var it := BeginOn(c);
      Continue(t, Loop(c, it, None));
    }

    /** GetNext, and when it returns null the iterator's destructor. */
    method NextObserver(t: ThreadId, c: Address, it: Iterator<Observer>)
      requires Owned() && StackIn(calls, t) != [] && TopCall(calls, t) == Loop(c, it, None)
      requires c in contexts && contexts[c].list.notifyDepth > 0
      modifies this, contexts[c].list, it
      ensures Owned() && contexts == old(contexts) && AllIterators(calls) <= old(AllIterators(calls))
      ensures Stack(old(Snapshot()), t) != []
      ensures DoNextObserver(old(Snapshot()), t, old(FrameOf(TopCall(calls, t)))) == Next(Snapshot())
    {
      hide HeapOf, ListsOf, ListsValid, ListsOwned, CallsOwned, FrameStacks, AllIterators, FramesOf, IteratorsOf,
        StackOwned, Pop, Push, Store, DoNextObserver;
      TopIs(t);
      HeapAt(c);
      NextStep(Snapshot(), t, FrameOf(TopCall(calls, t)));
      Return(t);
      var obs := Advance(c, it);
      if obs.Some? {
        Enter(t, Loop(c, it, obs));
      } else {
        EndOn(c, it);
        Enter(t, At(Leaving(c)));
      }
    }

    method Advance(c: Address, it: Iterator<Observer>) returns (obs: Option<Observer>)
      requires Owned() && c in contexts && it.list == contexts[c].list && it !in AllIterators(calls)
      modifies it
      ensures Owned() && Snapshot() == old(Snapshot())
      ensures var slots := it.list.observers; var limit := CursorLimit(it.maxIndex, |slots|);
        var stop := SkipNulls(slots, old(it.index), limit);
        if stop < limit then obs == slots[stop] && obs.Some? && it.index == stop + 1 else obs == None
    {
      hide HeapOf, ListsOf, ListsValid, ListsOwned, CallsOwned, FrameStacks, AllIterators, FramesOf, IteratorsOf,
        StackOwned;
      ListsNotIterator(it);
      Allocated();
      obs := it.GetNext();
    }

    method ObserverReturns(t: ThreadId, c: Address, it: Iterator<Observer>, obs: Observer)
      requires Owned() && StackIn(calls, t) != [] && TopCall(calls, t) == Loop(c, it, Some(obs))
      modifies this
      ensures Owned() && contexts == old(contexts) && AllIterators(calls) <= old(AllIterators(calls))
      ensures Stack(old(Snapshot()), t) != []
      ensures Snapshot() == Goto(old(Snapshot()), t, old(FrameOf(TopCall(calls, t))).(calling := None))
    {
      hide HeapOf, ListsOf, ListsValid, ListsOwned, CallsOwned, FrameStacks, AllIterators, FramesOf, IteratorsOf,
        StackOwned, Pop, Goto, Store;
      TopIs(t);
      Continue(t, Loop(c, it, None));
    }

    method TestEmpty(t: ThreadId, c: Address)
      requires Owned() && StackIn(calls, t) != [] && TopCall(calls, t) == At(Leaving(c)) && c in contexts
      modifies this
      ensures Owned() && contexts == old(contexts) && AllIterators(calls) <= old(AllIterators(calls))
      ensures Stack(old(Snapshot()), t) != []
      ensures DoTestEmpty(old(Snapshot()), t, c) == Next(Snapshot())
    {
      hide HeapOf, ListsOf, ListsValid, ListsOwned, CallsOwned, FrameStacks, AllIterators, FramesOf, IteratorsOf,
        StackOwned, Pop, Goto, Store;
      TopIs(t);
      HeapAt(c);
      if |contexts[c].list.observers| == 0 {
        Continue(t, At(Unmapping(c)));
      } else {
        Return(t);
      }
    }

    method Unmap(t: ThreadId, c: Address)
      requires Owned() && StackIn(calls, t) != [] && TopCall(calls, t) == At(Unmapping(c))
      modifies this
      ensures Owned() && contexts == old(contexts) && AllIterators(calls) <= old(AllIterators(calls))
      ensures Stack(old(Snapshot()), t) != []
      ensures DoUnmap(old(Snapshot()), t, c) == Next(Snapshot())
    {
      hide HeapOf, ListsOf, ListsValid, ListsOwned, CallsOwned, FrameStacks, AllIterators, FramesOf, IteratorsOf,
        StackOwned, Pop, Goto, Store;
      TopIs(t);
      if t in lists && lists[t] == c {
        SetLists(lists - {t});
      }
      Continue(t, At(Deleting(c)));
    }

    method Delete(t: ThreadId, c: Address)
      requires Owned() && StackIn(calls, t) != [] && TopCall(calls, t) == At(Deleting(c)) && c in contexts
      modifies this, contexts[c].list
      ensures Owned() && ListsOf(contexts) <= old(ListsOf(contexts)) && AllIterators(calls) <= old(AllIterators(calls))
      ensures Stack(old(Snapshot()), t) != []
      ensures DoDelete(old(Snapshot()), t, c) == Next(Snapshot())
    {
      hide HeapOf, ListsOf, ListsValid, ListsOwned, CallsOwned, FrameStacks, AllIterators, FramesOf, IteratorsOf,
        StackOwned, Pop, Goto, Store;
      TopIs(t);
      Free(c);
      Return(t);
    }

    // ----- any step -----

    /** What the invariant says of the objects. */
    lemma MappedIsAlive()
      requires Owned() && Inv(Snapshot())
      ensures forall t <- lists :: lists[t] in contexts && contexts[lists[t]].owner == t
    {
      forall t <- lists ensures lists[t] in contexts && contexts[lists[t]].owner == t {
        assert Snapshot().heap.Keys == contexts.Keys;
        HeapAt(lists[t]);
      }
    }

    lemma NoStrayCalls(storage: Address)
      requires Owned() && Inv(Snapshot()) && storage !in contexts
      ensures NoCallOn(calls, storage)
    {
      forall t, i | t in calls && 0 <= i < |calls[t]| && calls[t][i].Loop? ensures calls[t][i].context != storage {
        StackOfCalls(contexts, calls, t);
        assert StackOk(Snapshot().heap, t, Stack(Snapshot(), t));
        FramesAt(calls[t], i);
        assert Stack(Snapshot(), t)[i].context in Snapshot().heap;
      }
    }

    lemma ClientCode(t: ThreadId)
      requires Owned()
      ensures StackIn(calls, t) == [] <==> Stack(Snapshot(), t) == []
      ensures MayCall(StackIn(calls, t)) <==> InClientCode(Stack(Snapshot(), t))
    {
      StackOfCalls(contexts, calls, t);
      if StackIn(calls, t) != [] {
        TopIs(t);
      }
    }

    lemma TopIsAlive(t: ThreadId)
      requires Owned() && Inv(Snapshot()) && StackIn(calls, t) != []
      ensures var top := TopCall(calls, t); var c := FrameOf(top).context;
        c in contexts && contexts[c].list in ListsOf(contexts) && (top.Loop? ==> contexts[c].list.notifyDepth > 0)
    {
      TopIs(t);
      var f := FrameOf(TopCall(calls, t));
      TopAlive(Snapshot(), t, f);
      HeapAt(f.context);
    }

    /** The step an event stands for, if it can happen. */
    method Perform(e: Event)
      requires Owned() && Inv(Snapshot())
      modifies this, ListsOf(contexts), AllIterators(calls)
      ensures Owned() && Inv(Snapshot())
      ensures fresh(ListsOf(contexts) - old(ListsOf(contexts))) && fresh(AllIterators(calls) - old(AllIterators(calls)))
      ensures Exec(old(Snapshot()), e) == Next(Snapshot())
    {
      hide HeapOf, ListsOf, ListsValid, ListsOwned, CallsOwned, FrameStacks, AllIterators, FramesOf, IteratorsOf,
        StackOwned, Inv, Exec, Owned;
      ExecSafe(Snapshot(), e);
      MappedIsAlive();
      ClientCode(Actor(e));
      if Starts(e) {
        if e.CallAdd? && e.storage !in contexts {
          NoStrayCalls(e.storage);
        }
        Begin(e);
      } else if StackIn(calls, Actor(e)) != [] {
        Resume(Actor(e), e, TopCall(calls, Actor(e)));
      } else {
        IdleStep(Snapshot(), e);
      }
    }

    /** A call of the list's, the start of a task, or what happens outside the list. */
    method Begin(e: Event)
      requires Owned() && Starts(e)
      requires forall t <- lists :: lists[t] in contexts && contexts[lists[t]].owner == t
      requires e.CallAdd? && e.storage !in contexts ==> NoCallOn(calls, e.storage)
      modifies this
      ensures Owned()
      ensures fresh(ListsOf(contexts) - old(ListsOf(contexts))) && AllIterators(calls) <= old(AllIterators(calls))
      ensures Exec(old(Snapshot()), e) == Next(Snapshot())
    {
      hide HeapOf, ListsOf, ListsValid, ListsOwned, CallsOwned, FrameStacks, AllIterators, FramesOf, IteratorsOf,
        StackOwned, Owned, DoCallAdd, DoCallRemove, DoNotify, DoRunTask, DoTop;
      var t := Actor(e);
      ClientCode(t);
      match e
      case CallAdd(_, obs, storage) =>
        if MayCall(StackIn(calls, t)) {
          AddObserver(t, obs, storage);
        }
      case CallRemove(_, obs) =>
        if MayCall(StackIn(calls, t)) {
          RemoveObserver(t, obs);
        }
      case Notify(_) =>
        if MayCall(StackIn(calls, t)) {
          Notify();
        }
      case RunTask(task) =>
        if MayCall(StackIn(calls, t)) && task in tasks {
          RunTask(task);
        }
      case DropTask(task) =>
        SetTasks(tasks - multiset{task});
      case SetLoop(_, on) =>
        SetLooping(if on then looping + {t} else looping - {t});
    }

    method Resume(t: ThreadId, e: Event, top: Call)
      requires Owned() && Inv(Snapshot()) && Actor(e) == t && !Starts(e) && StackIn(calls, t) != [] && top == TopCall(calls, t)
      modifies this, ListsOf(contexts), AllIterators(calls)
      ensures Owned() && ListsOf(contexts) <= old(ListsOf(contexts)) && fresh(AllIterators(calls) - old(AllIterators(calls)))
      ensures Exec(old(Snapshot()), e) == Next(Snapshot())
    {
      hide HeapOf, ListsOf, ListsValid, ListsOwned, CallsOwned, FrameStacks, AllIterators, FramesOf, IteratorsOf,
        StackOwned, Owned, Inv, Exec, DoAddToList, DoRemoveFromList, DoFinishRemove, DoBeginIteration, DoNextObserver,
        DoTestEmpty, DoUnmap, DoDelete, Goto;
      TopIs(t);
      TopIsAlive(t);
      ExecIsTop(Snapshot(), e, FrameOf(top));
      match (e, top)
      case (AddToList(_), At(Adding(c, obs))) => AddToList(t, c, obs);
      case (RemoveFromList(_), At(Removing(c, obs))) => RemoveFromList(t, c, obs);
      case (FinishRemove(_), At(AfterRemove(c))) => FinishRemove(t, c);
      case (BeginIteration(_), At(Entering(c))) => BeginIteration(t, c);
      case (NextObserver(_), Loop(c, it, None)) => NextObserver(t, c, it);
      case (ObserverReturns(_), Loop(c, it, Some(obs))) => ObserverReturns(t, c, it, obs);
      case (TestEmpty(_), At(Leaving(c))) => TestEmpty(t, c);
      case (Unmap(_), At(Unmapping(c))) => Unmap(t, c);
      case (Delete(_), At(Deleting(c))) => Delete(t, c);
      case _ =>
    }

    lemma TopCalling(t: ThreadId)
      requires Owned()
      ensures Calling(Stack(Snapshot(), t)) == CallingOf(StackIn(calls, t))
    {
      StackOfCalls(contexts, calls, t);
      if StackIn(calls, t) != [] {
        TopIs(t);
      }
    }

    /** Whether an event can happen now. */
    predicate MayHappen(e: Event)
      reads this
    {
      var stack := StackIn(calls, Actor(e));
      match e
      case CallAdd(t, _, storage) => MayCall(stack) && (t in looping && t !in lists ==> storage !in contexts)
      case CallRemove(_, _) => MayCall(stack)
      case Notify(_) => MayCall(stack)
      case RunTask(task) => MayCall(stack) && task in tasks
      case DropTask(task) => task in tasks
      case SetLoop(_, _) => true
      case _ => stack != [] && MayGoOn(stack[|stack| - 1], e)
    }

    lemma MayHappenIs(e: Event)
      requires Owned()
      ensures MayHappen(e) <==> Happens(Snapshot(), e)
    {
      var t := Actor(e);
      ClientCode(t);
      assert HeapOf(contexts).Keys == contexts.Keys;
      if StackIn(calls, t) != [] {
        TopIs(t);
        GoesOn(TopCall(calls, t), e);
      }
      hide Waits, MayGoOn, FrameOf, InClientCode, MayCall, HeapOf, ListsOf, ListsValid, ListsOwned, CallsOwned, FrameStacks, AllIterators, FramesOf, IteratorsOf, StackOwned;
    }
  }

  lemma IdleStep(s: State, e: Event)
    requires Stack(s, Actor(e)) == [] && !Starts(e)
    ensures Exec(s, e) == Next(s)
  {
  }

  lemma TopAlive(s: State, t: ThreadId, f: Frame)
    requires Inv(s) && Stack(s, t) != [] && f == Stack(s, t)[|Stack(s, t)| - 1]
    ensures f.context in s.heap && (f.Iterating? ==> s.heap[f.context].depth > 0)
  {
    TopContext(s, t, f);
  }

  /** The step taken with the call off the stack. */
  lemma NextStep(s: State, t: ThreadId, f: Frame)
    requires Stack(s, t) != [] && f.Iterating? && f.context in s.heap && s.heap[f.context].depth > 0
    ensures Pop(s, t).heap == s.heap
    ensures var k := s.heap[f.context]; var limit := CursorLimit(f.maxIndex, |k.slots|); var stop := SkipNulls(k.slots, f.index, limit);
      DoNextObserver(s, t, f) == Next(
        if stop < limit then Push(Pop(s, t), t, f.(index := stop + 1, calling := k.slots[stop]))
        else Push(Store(Pop(s, t), f.context, k.(depth := k.depth - 1, slots := if k.depth == 1 then Compacted(k.slots) else k.slots)),
          t, Leaving(f.context)))
  {
  }

  lemma CountPosted(before: multiset<Task>, posted: set<Task>)
    ensures forall task: Task :: (before + multiset(posted))[task] == before[task] + (if task in posted then 1 else 0)
  {
  }

  function CallingOf(calls: seq<Call>): Option<Observer> {
    if calls == [] || !calls[|calls| - 1].Loop? then None else calls[|calls| - 1].calling
  }

  /** Whether the call on top of a stack is about to run the code that an event stands for. */
  predicate MayGoOn(top: Call, e: Event) {
    match top
    case At(frame) => Waits(frame, e)
    case Loop(_, _, calling) => if calling.None? then e.NextObserver? else e.ObserverReturns?
  }

  lemma GoesOn(top: Call, e: Event)
    ensures MayGoOn(top, e) <==> Waits(FrameOf(top), e)
  {
  }

  /** A step, and what happened in it. */
  method PerformAndWatch(list: SharedList, e: Event) returns (occurred: seq<Occurrence>)
    requires list.Owned() && Inv(list.Snapshot())
    modifies list, ListsOf(list.contexts), AllIterators(list.calls)
    ensures list.Owned() && Inv(list.Snapshot())
    ensures fresh(ListsOf(list.contexts) - old(ListsOf(list.contexts)))
    ensures fresh(AllIterators(list.calls) - old(AllIterators(list.calls)))
    ensures Exec(old(list.Snapshot()), e) == Next(list.Snapshot())
    ensures occurred == OneOccurrence(old(list.Snapshot()), e)
  {
    hide HeapOf, ListsOf, ListsValid, ListsOwned, CallsOwned, FrameStacks, AllIterators, FramesOf, IteratorsOf,
      StackOwned, Inv, Exec, Happens, SharedList.MayHappen;
    list.MayHappenIs(e);
    var happened := list.MayHappen(e);
    list.Perform(e);
    list.TopCalling(Actor(e));
    var called := if e.NextObserver? && happened then CallingOf(StackIn(list.calls, Actor(e))) else None;
    occurred := if happened then [Occurrence(e, called)] else [];
  }

  /** A whole schedule played in place from the empty list: what happened, and which observers were called. */
  method Play(kind: NotificationType, events: seq<Event>) returns (log: seq<Occurrence>)
    ensures log == Log(Initial(kind), events)
    ensures forall i :: 0 <= i < |log| && log[i].called.Some? ==> RegisteredIn(log[..i], Actor(log[i].event), log[i].called.value)
  {
    hide HeapOf, ListsOf, ListsValid, ListsOwned, CallsOwned, FrameStacks, AllIterators, FramesOf, IteratorsOf,
      StackOwned, Inv, Exec, OneOccurrence, RegisteredIn;
    var list := new SharedList(kind);
    NothingInProgress();
    InitialIsSafe(kind);
    DeliveriesAreRegistered(kind, events);
    log := [];
    assert events[0..] == events;
    Empty(Log(Initial(kind), events));
    for i := 0 to |events|
      invariant fresh(list) && fresh(ListsOf(list.contexts)) && fresh(AllIterators(list.calls))
      invariant list.Owned() && Inv(list.Snapshot())
      invariant log + Log(list.Snapshot(), events[i..]) == Log(Initial(kind), events)
    {
      assert events[i..][0] == events[i] && events[i..][1..] == events[i + 1..];
      ghost var before, lists, iterators := log, ListsOf(list.contexts), AllIterators(list.calls);
      label turn:
      var occurred := PerformAndWatch(list, events[i]);
      assert fresh@turn(ListsOf(list.contexts) - lists) && fresh@turn(AllIterators(list.calls) - iterators);
      assert forall l <- ListsOf(list.contexts) :: l in lists || fresh@turn(l);
      assert forall it <- AllIterators(list.calls) :: it in iterators || fresh@turn(it);
      log := log + occurred;
      Regroup(before, occurred, Log(list.Snapshot(), events[i + 1..]));
    }
    Empty(log);
  }

  lemma NothingInProgress()
    ensures ListsOf(map[]) == {} && AllIterators(map[]) == {}
  {
  }
}
