/**
 base/observer_list_threadsafe.h: that a notification arrives.  Notify posts one task for each
 thread that has observers, and the loop of that task, whatever is added, removed or notified
 meanwhile and however its callbacks nest, calls every observer that stays registered once.
 */
module NotificationDelivery {
  import opened Sequences
  import opened Wrappers
  import opened ObserverList
  import opened ObserverListThreadSafe
  import opened NotificationHistory

  // ----- the tasks -----

  /** The task is for the context its thread has in the map. */
  predicate Addressed(s: State, task: Task) {
    Mapped(s, task.thread, task.context) && task.context in s.heap && s.heap[task.context].born == task.born
  }

  /** One more task for each context in the map, on its own thread, and nothing else. */
  lemma NotifyPostsOneEach(s: State, caller: ThreadId)
    requires Inv(s) && Happens(s, Notify(caller))
    ensures var s' := After(s, Notify(caller));
      && s' == s.(tasks := s'.tasks)
      && forall task: Task :: s'.tasks[task] == s.tasks[task] + if Addressed(s, task) then 1 else 0
  {
    var posted := set t | t in s.lists :: var k := s.heap[s.lists[t]]; Task(k.owner, s.lists[t], k.born);
    ExecSafe(s, Notify(caller));
    forall task: Task ensures task in posted <==> Addressed(s, task) {
      if Addressed(s, task) {
        assert s.lists[task.thread] == task.context;
      }
    }
  }

  // ----- one notification loop -----

  function FrameAt(s: State, u: ThreadId, level: nat): Option<Frame> {
    if level < |Stack(s, u)| then Some(Stack(s, u)[level]) else None
  }

  /** NotifyWrapper has passed its first check and its loop has not ended. */
  predicate AtWork(f: Option<Frame>) {
    f.Some? && (f.value.Entering? || f.value.Iterating?)
  }

  /** The call at this level of the stack goes on until its GetNext returns null. */
  ghost predicate Loops(s: State, events: seq<Event>, u: ThreadId, level: nat)
    decreases |events|
  {
    if events == [] then FrameAt(s, u, level).Some? && FrameAt(s, u, level).value.Leaving?
    else AtWork(FrameAt(s, u, level)) && Loops(After(s, events[0]), events[1..], u, level)
  }

  predicate CallsAt(s: State, e: Event, u: ThreadId, level: nat) {
    e == NextObserver(u) && |Stack(s, u)| == level + 1 && CalledBy(s, e).Some?
  }

  /** The observers called by the call at this level of the stack. */
  function CalledAt(s: State, events: seq<Event>, u: ThreadId, level: nat): seq<Observer>
    decreases |events|
  {
    if events == [] then []
    else
      (if CallsAt(s, events[0], u, level) then [CalledBy(s, events[0]).value] else [])
        + CalledAt(After(s, events[0]), events[1..], u, level)
  }

  /** RemoveObserver(obs) is not called on u. */
  ghost predicate NeverRemoved(s: State, events: seq<Event>, u: ThreadId, obs: Observer)
    decreases |events|
  {
    events != [] ==>
      !(Happens(s, events[0]) && RemovalOf(events[0], u, obs)) && NeverRemoved(After(s, events[0]), events[1..], u, obs)
  }

  // ----- what stays while an observer stays registered -----

  lemma StaysRegistered(s: State, e: Event, u: ThreadId, obs: Observer)
    requires Inv(s) && (u, obs) in s.registered && !(Happens(s, e) && RemovalOf(e, u, obs))
    ensures Inv(After(s, e)) && (u, obs) in After(s, e).registered
  {
    ExecSafe(s, e);
    if Happens(s, e) {
      RegistrationStep(s, e);
    } else {
      NothingHappens(s, e);
    }
    hide Inv, Exec, Happens;
  }

  lemma RegisteredSlot(s: State, u: ThreadId, obs: Observer)
    requires Inv(s) && (u, obs) in s.registered
    ensures u in s.lists && s.lists[u] in s.heap && s.heap[s.lists[u]].owner == u && Distinct(s.heap[s.lists[u]].slots)
    ensures Some(obs) in s.heap[s.lists[u]].slots
    ensures Unfinished(Stack(s, u), s.lists[u]) != Some(Removing(s.lists[u], obs))
  {
    InvAt(s, u);
    assert Notifiable(s, u, obs);
  }

  /** While somebody is registered on it, a thread keeps its context. */
  ghost predicate SameContextFor(s: State, s': State, u: ThreadId) {
    && u in s.lists && u in s'.lists && s'.lists[u] == s.lists[u]
    && s.lists[u] in s.heap && s.lists[u] in s'.heap && s'.heap[s.lists[u]].born == s.heap[s.lists[u]].born
  }

  lemma StartKeepsContext(s: State, e: Event, u: ThreadId, obs: Observer)
    requires Starts(e) && !RemovalOf(e, u, obs) && Exec(s, e).Next?
    requires u in s.lists && s.lists[u] in s.heap && Some(obs) in s.heap[s.lists[u]].slots
    ensures SameContextFor(s, Exec(s, e).state, u)
    ensures Exec(s, e).state.heap[s.lists[u]] == s.heap[s.lists[u]]
  {
  }

  lemma TopKeepsContext(s: State, t: ThreadId, e: Event, f: Frame, u: ThreadId, obs: Observer)
    requires Stack(s, t) != [] && Waits(f, e) && DoTop(s, t, e, f).Next?
    requires f.context in s.heap && s.heap[f.context].owner == t
    requires u in s.lists && s.lists[u] in s.heap && s.heap[s.lists[u]].owner == u && Some(obs) in s.heap[s.lists[u]].slots
    requires f.context == s.lists[u] && (f.Unmapping? || f.Deleting?) ==> s.heap[f.context].slots == []
    ensures SameContextFor(s, DoTop(s, t, e, f).state, u)
  {
  }

  lemma CallKeepsContext(s: State, e: Event, u: ThreadId, obs: Observer)
    requires Inv(s) && Happens(s, e) && !Starts(e) && Exec(s, e).Next?
    requires u in s.lists && s.lists[u] in s.heap && s.heap[s.lists[u]].owner == u && Some(obs) in s.heap[s.lists[u]].slots
    ensures SameContextFor(s, Exec(s, e).state, u)
  {
    var t := Actor(e);
    var f := Stack(s, t)[|Stack(s, t)| - 1];
    TopContext(s, t, f);
    ContextFacts(s.heap[f.context], Mapped(s, t, f.context), Stack(s, t), f.context);
    ExecIsTop(s, e, f);
    hide Inv, DoTop, Exec, Distinct, NoNulls, ContextOk, SameContextFor;
    TopKeepsContext(s, t, e, f, u, obs);
  }

  lemma KeepsContext(s: State, e: Event, u: ThreadId, obs: Observer)
    requires Inv(s) && (u, obs) in s.registered && !(Happens(s, e) && RemovalOf(e, u, obs))
    ensures SameContextFor(s, After(s, e), u)
  {
    RegisteredSlot(s, u, obs);
    ExecSafe(s, e);
    hide Inv, Exec, Happens, RemovalOf;
    if !Happens(s, e) {
      NothingHappens(s, e);
    } else if Starts(e) {
      StartKeepsContext(s, e, u, obs);
    } else {
      CallKeepsContext(s, e, u, obs);
    }
  }

  // ----- an occupied slot stays where it is while its list is being iterated -----

  lemma {:induction false} DepthAtLeast(stack: seq<Frame>, c: Address, level: nat)
    requires level < |stack| && stack[level].Iterating? && stack[level].context == c
    ensures Depth(stack, c) >= 1
    ensures level < |stack| - 1 && stack[|stack| - 1].Iterating? && stack[|stack| - 1].context == c ==> Depth(stack, c) >= 2
    decreases |stack|
  {
    if level < |stack| - 1 {
      DepthAtLeast(stack[..|stack| - 1], c, level);
    }
  }

  ghost predicate SlotStays(s: State, s': State, c: Address, p: nat, obs: Observer) {
    c in s.heap && c in s'.heap && p < |s'.heap[c].slots| && s'.heap[c].slots[p] == Some(obs)
  }

  lemma TopExists(s: State, e: Event)
    requires Happens(s, e) && !Starts(e)
    ensures Stack(s, Actor(e)) != []
  {
  }

  lemma RemovedElsewhere(slots: Slots<Observer>, other: Observer, p: nat, obs: Observer)
    requires p < |slots| && slots[p] == Some(obs) && other != obs
    ensures var after := ObserverList.Removed(slots, true, other); p < |after| && after[p] == Some(obs)
  {
  }

  lemma TopKeepsSlot(s: State, t: ThreadId, e: Event, f: Frame, c: Address, p: nat, obs: Observer)
    requires Stack(s, t) != [] && Waits(f, e) && DoTop(s, t, e, f).Next?
    requires c in s.heap && p < |s.heap[c].slots| && s.heap[c].slots[p] == Some(obs)
    requires f.context == c ==>
      && s.heap[c].depth > 0 && !f.Deleting? && !f.Unmapping?
      && (f.Removing? ==> f.obs != obs)
      && (e.NextObserver? ==> s.heap[c].depth >= 2 || Calling(Stack(DoTop(s, t, e, f).state, t)).Some?)
    ensures SlotStays(s, DoTop(s, t, e, f).state, c, p, obs)
  {
    if f.Removing? && f.context == c {
      RemovedElsewhere(s.heap[c].slots, f.obs, p, obs);
    }
    hide ObserverList.Removed;
  }

  lemma StartKeepsSlot(s: State, e: Event, c: Address, p: nat, obs: Observer)
    requires Starts(e) && Exec(s, e).Next?
    requires c in s.heap && p < |s.heap[c].slots| && s.heap[c].slots[p] == Some(obs)
    ensures SlotStays(s, Exec(s, e).state, c, p, obs)
  {
  }

  // ----- the frame of a loop -----

  /** GetNext of the notification loop on top of the stack. */
  lemma NextIs(s: State, t: ThreadId, f: Frame)
    requires Stack(s, t) != [] && f == Stack(s, t)[|Stack(s, t)| - 1] && f.Iterating? && f.context in s.heap
    ensures DoNextObserver(s, t, f).Next?
    ensures var s', n := DoNextObserver(s, t, f).state, |Stack(s, t)| - 1;
      var slots := s.heap[f.context].slots;
      var limit := CursorLimit(f.maxIndex, |slots|);
      var stop := SkipNulls(slots, f.index, limit);
      && |Stack(s', t)| == n + 1 && Stack(s', t)[..n] == Stack(s, t)[..n]
      && Stack(s', t)[n] == if stop < limit then f.(index := stop + 1, calling := slots[stop]) else Leaving(f.context)
  {
  }

  /** What becomes of the frame of a loop, `now`, in a step. */
  ghost predicate FrameMoves(s: State, e: Event, u: ThreadId, level: nat, now: Frame, next: Option<Frame>)
    requires now.Iterating?
  {
    if level < |Stack(s, u)| - 1 || Actor(e) != u || !Happens(s, e) || Starts(e) then next == Some(now) && !CallsAt(s, e, u, level)
    else if e.NextObserver? then
      now.context in s.heap &&
      var slots := s.heap[now.context].slots;
      var limit := CursorLimit(now.maxIndex, |slots|);
      var stop := SkipNulls(slots, now.index, limit);
      && next == Some(if stop < limit then now.(index := stop + 1, calling := slots[stop]) else Leaving(now.context))
      && (CallsAt(s, e, u, level) <==> stop < limit)
      && (stop < limit ==> CalledBy(s, e) == slots[stop])
    else next == Some(now.(calling := None)) && !CallsAt(s, e, u, level)
  }

  /** Somebody else's step, or a call that starts above it. */
  lemma FrameStaysBelow(s: State, e: Event, u: ThreadId, level: nat)
    requires Happens(s, e) && Exec(s, e).Next? && level < |Stack(s, u)|
    requires level < |Stack(s, u)| - 1 || Actor(e) != u || Starts(e)
    ensures FrameAt(Exec(s, e).state, u, level) == FrameAt(s, u, level)
  {
    var t := Actor(e);
    if Starts(e) {
      StartedFrames(s, e);
      hide Exec, Happens;
    } else {
      var f := Stack(s, t)[|Stack(s, t)| - 1];
      assert Waits(f, e);
      ExecIsTop(s, e, f);
      TopFrames(s, t, e, f);
      hide Exec, Happens, DoTop, Waits;
      var below, after := Stack(s, t)[..|Stack(s, t)| - 1], Stack(DoTop(s, t, e, f).state, t);
      assert level < |below| ==> after[..|below|][level] == below[level];
    }
  }

  lemma LoopMoves(s: State, e: Event, u: ThreadId, level: nat)
    requires Happens(s, e) && !Starts(e) && Actor(e) == u && level == |Stack(s, u)| - 1
    requires Stack(s, u)[level].Iterating? && Stack(s, u)[level].context in s.heap && Exec(s, e).Next?
    ensures FrameMoves(s, e, u, level, Stack(s, u)[level], FrameAt(Exec(s, e).state, u, level))
  {
    var f := Stack(s, u)[level];
    ExecIsTop(s, e, f);
    assert e.NextObserver? || e.ObserverReturns?;
    if e.NextObserver? {
      assert DoTop(s, u, e, f) == DoNextObserver(s, u, f);
      NextIs(s, u, f);
    }
    hide Exec, DoNextObserver;
  }

  /** The loop takes no part in the step. */
  lemma FrameIdle(s: State, e: Event, u: ThreadId, level: nat)
    requires FrameAt(s, u, level).Some? && FrameAt(s, u, level).value.Iterating?
    requires level < |Stack(s, u)| - 1 || Actor(e) != u || !Happens(s, e) || Starts(e)
    ensures FrameMoves(s, e, u, level, FrameAt(s, u, level).value, FrameAt(s, u, level))
  {
    hide Exec;
  }

  lemma TopInHeap(s: State, u: ThreadId)
    requires Inv(s) && Stack(s, u) != []
    ensures Stack(s, u)[|Stack(s, u)| - 1].context in s.heap
  {
    TopContext(s, u, Stack(s, u)[|Stack(s, u)| - 1]);
  }

  lemma FrameStep(s: State, e: Event, u: ThreadId, level: nat)
    requires Inv(s) && FrameAt(s, u, level).Some? && FrameAt(s, u, level).value.Iterating?
    ensures FrameMoves(s, e, u, level, FrameAt(s, u, level).value, FrameAt(After(s, e), u, level))
  {
    ExecSafe(s, e);
    assert Stack(s, u) != [] && level < |Stack(s, u)|;
    TopInHeap(s, u);
    hide Inv, Exec, Happens, FrameMoves, Starts, Stack;
    if !Happens(s, e) {
      NothingHappens(s, e);
      FrameIdle(s, e, u, level);
    } else if level == |Stack(s, u)| - 1 && Actor(e) == u && !Starts(e) {
      LoopMoves(s, e, u, level);
    } else {
      FrameStaysBelow(s, e, u, level);
      FrameIdle(s, e, u, level);
    }
  }

  // ----- every observer that stays is called once -----

  /** The loop at this level of u's stack is on the context u has in the map, where obs has slot p. */
  ghost predicate Watching(s: State, u: ThreadId, level: nat, c: Address, p: nat, obs: Observer) {
    && (u, obs) in s.registered && u in s.lists && s.lists[u] == c
    && FrameAt(s, u, level).Some? && FrameAt(s, u, level).value.Iterating? && FrameAt(s, u, level).value.context == c
    && c in s.heap && Distinct(s.heap[c].slots) && p < |s.heap[c].slots| && s.heap[c].slots[p] == Some(obs)
    && (FrameAt(s, u, level).value.maxIndex.Some? ==> p < FrameAt(s, u, level).value.maxIndex.value)
  }

  lemma DepthOf(s: State, u: ThreadId, level: nat, c: Address)
    requires Inv(s) && c in s.heap && s.heap[c].owner == u
    requires FrameAt(s, u, level).Some? && FrameAt(s, u, level).value.Iterating? && FrameAt(s, u, level).value.context == c
    ensures s.heap[c].depth >= 1
    ensures var stack := Stack(s, u); level < |stack| - 1 && stack[|stack| - 1].Iterating? && stack[|stack| - 1].context == c ==> s.heap[c].depth >= 2
  {
    assert ContextOk(s.heap[c], Mapped(s, u, c), Stack(s, u), c);
    DepthAtLeast(Stack(s, u), c, level);
  }

  /** A thread's list that holds an observer who stays registered is not being given up. */
  lemma NotGivenUp(s: State, u: ThreadId, f: Frame, obs: Observer)
    requires Inv(s) && (u, obs) in s.registered && Stack(s, u) != [] && f == Stack(s, u)[|Stack(s, u)| - 1]
    requires u in s.lists && f.context == s.lists[u]
    ensures !f.Deleting? && !f.Unmapping? && (f.Removing? ==> f.obs != obs)
  {
    RegisteredSlot(s, u, obs);
    TopContext(s, u, f);
    ContextFacts(s.heap[f.context], Mapped(s, u, f.context), Stack(s, u), f.context);
    hide Inv, ContextOk, Distinct, NoNulls, Unfinished;
  }

  lemma NextIsTop(s: State, u: ThreadId, f: Frame)
    requires Stack(s, u) != [] && f == Stack(s, u)[|Stack(s, u)| - 1] && Happens(s, NextObserver(u))
    ensures f.Iterating? && f.calling.None? && DoTop(s, u, NextObserver(u), f) == DoNextObserver(s, u, f)
  {
    hide DoNextObserver;
  }

  /** A loop that ends leaves another one of the same list below it, or is the one looked at. */
  lemma NotTheLast(s: State, e: Event, u: ThreadId, level: nat, c: Address, f: Frame)
    requires Inv(s) && c in s.heap && s.heap[c].owner == u && Happens(s, e) && e == NextObserver(u)
    requires f == Stack(s, u)[|Stack(s, u)| - 1] && f.context == c
    requires FrameAt(s, u, level).Some? && FrameAt(s, u, level).value.Iterating? && FrameAt(s, u, level).value.context == c
    requires Exec(s, e).Next? && AtWork(FrameAt(Exec(s, e).state, u, level))
    ensures s.heap[c].depth >= 2 || Calling(Stack(Exec(s, e).state, u)).Some?
  {
    DepthOf(s, u, level, c);
    ExecIsTop(s, e, f);
    NextIsTop(s, u, f);
    hide Inv, Exec, DoTop, DoNextObserver, Happens, Depth;
    NextIs(s, u, f);
    var stack, after := Stack(s, u), Stack(Exec(s, e).state, u);
    assert level < |stack| - 1 || after[level].Iterating?;
  }

  lemma CallKeepsSlot(s: State, e: Event, u: ThreadId, level: nat, c: Address, p: nat, obs: Observer)
    requires Inv(s) && Watching(s, u, level, c, p, obs) && Happens(s, e) && !Starts(e) && Exec(s, e).Next?
    requires AtWork(FrameAt(Exec(s, e).state, u, level))
    ensures SlotStays(s, Exec(s, e).state, c, p, obs)
  {
    var t := Actor(e);
    TopExists(s, e);
    var f := Stack(s, t)[|Stack(s, t)| - 1];
    assert Waits(f, e) by { hide Inv, Exec, AtWork, Watching; }
    RegisteredSlot(s, u, obs);
    hide Exec, Happens, Stack, AtWork, FrameAt, Starts, Waits;
    TopContext(s, t, f);
    ExecIsTop(s, e, f);
    if f.context == c {
      NotGivenUp(s, u, f, obs);
      DepthOf(s, u, level, c);
      if e.NextObserver? {
        NotTheLast(s, e, u, level, c, f);
      }
    }
    hide Inv, Watching, DoTop;
    TopKeepsSlot(s, t, e, f, c, p, obs);
  }

  lemma KeepsSlot(s: State, e: Event, u: ThreadId, level: nat, c: Address, p: nat, obs: Observer)
    requires Inv(s) && Watching(s, u, level, c, p, obs)
    requires AtWork(FrameAt(After(s, e), u, level))
    ensures SlotStays(s, After(s, e), c, p, obs)
  {
    ExecSafe(s, e);
    hide Inv, Exec, Happens, Distinct;
    if !Happens(s, e) {
      NothingHappens(s, e);
    } else if Starts(e) {
      StartKeepsSlot(s, e, c, p, obs);
    } else {
      CallKeepsSlot(s, e, u, level, c, p, obs);
    }
  }

  /** How often an observer was called. */
  function Count(called: seq<Observer>, obs: Observer): nat {
    multiset(called)[obs]
  }

  lemma CountConcat(a: seq<Observer>, b: seq<Observer>, obs: Observer)
    ensures Count(a + b, obs) == Count(a, obs) + Count(b, obs)
  {
    assert multiset(a + b) == multiset(a) + multiset(b);
  }

  /** How often the loop has still to call the observer in slot p. */
  function Due(s: State, u: ThreadId, level: nat, p: nat): nat {
    var f := FrameAt(s, u, level);
    if f.Some? && f.value.Iterating? && p >= f.value.index then 1 else 0
  }

  function Once(s: State, e: Event, u: ThreadId, level: nat, obs: Observer): nat {
    if CallsAt(s, e, u, level) && CalledBy(s, e) == Some(obs) then 1 else 0
  }

  /** In a step the loop calls the observer in slot p or has still to, but not both; it does not end before it has. */
  lemma DueStep(s: State, e: Event, s': State, u: ThreadId, level: nat, c: Address, p: nat, obs: Observer)
    requires Watching(s, u, level, c, p, obs)
    requires FrameMoves(s, e, u, level, FrameAt(s, u, level).value, FrameAt(s', u, level))
    ensures Due(s, u, level, p) == Once(s, e, u, level, obs) + Due(s', u, level, p)
    ensures FrameAt(s', u, level).Some?
    ensures var f, f' := FrameAt(s, u, level).value, FrameAt(s', u, level).value;
      f'.Leaving? || (f'.Iterating? && f'.context == f.context && f'.maxIndex == f.maxIndex)
  {
    hide Happens, CalledBy, Stack, Starts, CallsAt;
    var f := FrameAt(s, u, level).value;
    assert FrameAt(s', u, level) == Some(f) ==> !CallsAt(s, e, u, level);
  }

  lemma WatchStep(s: State, e: Event, u: ThreadId, level: nat, c: Address, p: nat, obs: Observer)
    requires Inv(s) && Watching(s, u, level, c, p, obs) && !(Happens(s, e) && RemovalOf(e, u, obs))
    ensures Inv(After(s, e))
    ensures AtWork(FrameAt(After(s, e), u, level)) ==> Watching(After(s, e), u, level, c, p, obs)
    ensures Due(s, u, level, p) == Once(s, e, u, level, obs) + Due(After(s, e), u, level, p)
  {
    hide Inv, Happens, RemovalOf, After, CallsAt, Stack, Starts, FrameMoves, Once, Due, FrameAt, Distinct;
    StaysRegistered(s, e, u, obs);
    KeepsContext(s, e, u, obs);
    FrameStep(s, e, u, level);
    DueStep(s, e, After(s, e), u, level, c, p, obs);
    RegisteredSlot(After(s, e), u, obs);
    if AtWork(FrameAt(After(s, e), u, level)) {
      KeepsSlot(s, e, u, level, c, p, obs);
    }
  }

  /** The run of a loop is over, or its next step is not its last. */
  lemma LoopOver(s: State, events: seq<Event>, u: ThreadId, level: nat, p: nat)
    requires Loops(s, events, u, level)
    ensures if events == [] then Due(s, u, level, p) == 0 else AtWork(FrameAt(s, u, level))
  {
    hide After, Stack;
  }

  /** The first calls of a run, and the rest. */
  lemma CountFirst(s: State, events: seq<Event>, u: ThreadId, level: nat, obs: Observer)
    requires events != []
    ensures Count(CalledAt(s, events, u, level), obs)
      == Once(s, events[0], u, level, obs) + Count(CalledAt(After(s, events[0]), events[1..], u, level), obs)
  {
    hide After, CalledBy;
    var first: seq<Observer> := if CallsAt(s, events[0], u, level) then [CalledBy(s, events[0]).value] else [];
    CountConcat(first, CalledAt(After(s, events[0]), events[1..], u, level), obs);
  }

  lemma {:induction false} LoopCalls(s: State, events: seq<Event>, u: ThreadId, level: nat, c: Address, p: nat, obs: Observer)
    requires Inv(s) && Watching(s, u, level, c, p, obs)
    requires Loops(s, events, u, level) && NeverRemoved(s, events, u, obs)
    ensures Count(CalledAt(s, events, u, level), obs) == Due(s, u, level, p)
    decreases |events|
  {
    WatchedLoops(s, events, u, level, c, p, obs);
    var s' := After(s, events[0]);
    assert Loops(s', events[1..], u, level) && NeverRemoved(s', events[1..], u, obs);
    hide Inv, Watching, CallsAt, After, CalledBy, CalledAt, Happens, RemovalOf, AtWork, FrameAt, Count, Once, Due, Loops, NeverRemoved;
    WatchStep(s, events[0], u, level, c, p, obs);
    CountFirst(s, events, u, level, obs);
    LoopOver(s', events[1..], u, level, p);
    if events[1..] == [] {
      NoneCalled(s', u, level, obs);
    } else {
      LoopCalls(s', events[1..], u, level, c, p, obs);
    }
  }

  lemma WatchedLoops(s: State, events: seq<Event>, u: ThreadId, level: nat, c: Address, p: nat, obs: Observer)
    requires Watching(s, u, level, c, p, obs) && Loops(s, events, u, level) && NeverRemoved(s, events, u, obs)
    ensures events != [] && !(Happens(s, events[0]) && RemovalOf(events[0], u, obs))
  {
    hide After, Happens, RemovalOf;
  }

  lemma NoneCalled(s: State, u: ThreadId, level: nat, obs: Observer)
    ensures Count(CalledAt(s, [], u, level), obs) == 0
  {
  }

  // ----- from the start of the task -----

  lemma EnteringIsTop(s: State, u: ThreadId, level: nat)
    requires Inv(s) && FrameAt(s, u, level).Some? && FrameAt(s, u, level).value.Entering?
    ensures level == |Stack(s, u)| - 1 && FrameAt(s, u, level).value.context in s.heap
  {
    TopContext(s, u, Stack(s, u)[|Stack(s, u)| - 1]);
    assert StackOk(s.heap, u, Stack(s, u));
  }

  lemma BeginFrame(s: State, u: ThreadId, level: nat, c: Address)
    requires level == |Stack(s, u)| - 1 && Stack(s, u)[level] == Entering(c) && c in s.heap
    ensures var s' := After(s, BeginIteration(u));
      && c in s'.heap && s'.heap[c].slots == s.heap[c].slots
      && |Stack(s', u)| == level + 1
      && FrameAt(s', u, level) == Some(Iterating(c, 0, if s.kind == NotifyAll then None else Some(|s.heap[c].slots|), None))
      && !CallsAt(s, BeginIteration(u), u, level)
  {
  }

  lemma OnlyBegins(s: State, e: Event, u: ThreadId, level: nat, c: Address)
    requires level == |Stack(s, u)| - 1 && Stack(s, u)[level] == Entering(c)
    ensures Happens(s, e) && e != BeginIteration(u) ==> Actor(e) != u || Starts(e)
    ensures !CallsAt(s, e, u, level)
  {
  }

  /** Until its iteration begins, a task's call waits. */
  lemma EnteringStep(s: State, e: Event, u: ThreadId, level: nat, c: Address)
    requires Inv(s) && FrameAt(s, u, level) == Some(Entering(c))
    ensures !CallsAt(s, e, u, level)
    ensures var s' := After(s, e);
      if e == BeginIteration(u) then
        && c in s'.heap
        && FrameAt(s', u, level) == Some(Iterating(c, 0, if s.kind == NotifyAll then None else Some(|s'.heap[c].slots|), None))
      else FrameAt(s', u, level) == Some(Entering(c))
  {
    ExecSafe(s, e);
    EnteringIsTop(s, u, level);
    OnlyBegins(s, e, u, level, c);
    hide Inv, Exec, Happens, CallsAt, Starts;
    if e == BeginIteration(u) {
      BeginFrame(s, u, level, c);
    } else if !Happens(s, e) {
      NothingHappens(s, e);
    } else {
      FrameStaysBelow(s, e, u, level);
    }
  }

  lemma {:induction false} TaskCalls(s: State, events: seq<Event>, u: ThreadId, level: nat, c: Address, obs: Observer)
    requires Inv(s) && (u, obs) in s.registered && u in s.lists && s.lists[u] == c && FrameAt(s, u, level) == Some(Entering(c))
    requires Loops(s, events, u, level) && NeverRemoved(s, events, u, obs)
    ensures Count(CalledAt(s, events, u, level), obs) == 1
    decreases |events|
  {
    var e := events[0];
    var s' := After(s, e);
    EnteringStep(s, e, u, level, c);
    StaysRegistered(s, e, u, obs);
    KeepsContext(s, e, u, obs);
    RegisteredSlot(s', u, obs);
    hide Inv, CallsAt, After, CalledBy, Happens, Distinct, Due, FrameAt;
    var rest := CalledAt(s', events[1..], u, level);
    Empty(rest);
    if e == BeginIteration(u) {
      var p :| 0 <= p < |s'.heap[c].slots| && s'.heap[c].slots[p] == Some(obs);
      LoopCalls(s', events[1..], u, level, c, p, obs);
      AllDue(s', u, level, p);
    } else {
      TaskCalls(s', events[1..], u, level, c, obs);
    }
  }

  lemma AllDue(s: State, u: ThreadId, level: nat, p: nat)
    requires FrameAt(s, u, level).Some? && FrameAt(s, u, level).value.Iterating? && FrameAt(s, u, level).value.index == 0
    ensures Due(s, u, level, p) == 1
  {
  }

  lemma {:induction false} RegisteredThroughout(s: State, events: seq<Event>, u: ThreadId, obs: Observer)
    requires Inv(s) && (u, obs) in s.registered && NeverRemoved(s, events, u, obs)
    ensures var s' := AfterAll(s, events); Inv(s') && (u, obs) in s'.registered && SameContextFor(s, s', u)
    decreases |events|
  {
    if events == [] {
      RegisteredSlot(s, u, obs);
    } else {
      StaysRegistered(s, events[0], u, obs);
      KeepsContext(s, events[0], u, obs);
      hide Inv, After, Happens;
      RegisteredThroughout(After(s, events[0]), events[1..], u, obs);
    }
  }

  lemma TaskStarts(s: State, task: Task)
    requires Inv(s) && Happens(s, RunTask(task)) && Mapped(s, task.thread, task.context)
    ensures var s' := After(s, RunTask(task));
      && Inv(s') && s' == Push(s.(tasks := s.tasks - multiset{task}), task.thread, Entering(task.context))
      && FrameAt(s', task.thread, |Stack(s, task.thread)|) == Some(Entering(task.context))
  {
    ExecSafe(s, RunTask(task));
  }

  /**
   What Notify is for.  An observer registered on u when Notify is called, and not removed
   until the loop of the task posted for u has ended, is called by that loop exactly once,
   whatever else happens before the task is run and while its loop runs.
   */
  lemma NotificationArrives(s: State, caller: ThreadId, u: ThreadId, obs: Observer, task: Task, before: seq<Event>, during: seq<Event>)
    requires Inv(s) && Happens(s, Notify(caller)) && (u, obs) in s.registered
    requires Addressed(s, task) && task.thread == u
    requires NeverRemoved(After(s, Notify(caller)), before, u, obs)
    requires var s' := AfterAll(After(s, Notify(caller)), before);
      && Happens(s', RunTask(task))
      && Loops(After(s', RunTask(task)), during, u, |Stack(s', u)|)
      && NeverRemoved(After(s', RunTask(task)), during, u, obs)
    ensures var s' := AfterAll(After(s, Notify(caller)), before);
      Count(CalledAt(After(s', RunTask(task)), during, u, |Stack(s', u)|), obs) == 1
  {
    var s1 := After(s, Notify(caller));
    NotifyPostsOneEach(s, caller);
    ExecSafe(s, Notify(caller));
    hide Exec, Loops, NeverRemoved, Happens, CalledAt;
    RegisteredThroughout(s1, before, u, obs);
    var s2 := AfterAll(s1, before);
    TaskStarts(s2, task);
    TaskCalls(After(s2, RunTask(task)), during, u, |Stack(s2, u)|, task.context, obs);
  }

  lemma StartTakes(s: State, e: Event, task: Task)
    requires Starts(e) && Exec(s, e).Next? && !(Happens(s, e) && (e == RunTask(task) || e == DropTask(task)))
    ensures Exec(s, e).state.tasks[task] >= s.tasks[task]
  {
  }

  /** A posted task waits until it is run or dropped. */
  lemma TaskWaits(s: State, e: Event, task: Task)
    requires Inv(s) && !(Happens(s, e) && (e == RunTask(task) || e == DropTask(task)))
    ensures After(s, e).tasks[task] >= s.tasks[task]
  {
    ExecSafe(s, e);
    hide Inv, Exec, Happens, DoTop;
    if Starts(e) {
      StartTakes(s, e, task);
    } else if !Happens(s, e) {
      NothingHappens(s, e);
    } else {
      TopExists(s, e);
      var f := Stack(s, Actor(e))[|Stack(s, Actor(e))| - 1];
      ExecIsTop(s, e, f);
      TopKeepsBirths(s, Actor(e), e, f);
    }
  }

  // ----- a loop that nobody disturbs -----

  function Turns(u: ThreadId, n: nat): seq<Event> {
    if n == 0 then [NextObserver(u)] else [NextObserver(u), ObserverReturns(u)] + Turns(u, n - 1)
  }

  lemma ContentsNext(slots: Slots<Observer>, index: nat)
    requires index < |slots|
    ensures var rest := Contents(slots[index + 1..]);
      Contents(slots[index..]) == if slots[index].None? then rest else [slots[index].value] + rest
  {
    assert slots[index..][0] == slots[index] && slots[index..][1..] == slots[index + 1..];
    Empty(Contents(slots[index + 1..]));
  }

  lemma {:induction false} ContentsFrom(slots: Slots<Observer>, index: nat)
    requires index <= |slots|
    ensures var stop := SkipNulls(slots, index, |slots|);
      Contents(slots[index..]) == if stop < |slots| then [slots[stop].value] + Contents(slots[stop + 1..]) else []
    decreases |slots| - index
  {
    if index < |slots| {
      ContentsNext(slots, index);
      assert SkipNulls(slots, index, |slots|) == if slots[index].None? then SkipNulls(slots, index + 1, |slots|) else index;
      hide Contents, SkipNulls;
      if slots[index].None? {
        ContentsFrom(slots, index + 1);
      }
    }
  }

  /** A loop on top of the stack, about to ask for the next observer, whose range is the whole list. */
  predicate ReadyAlone(s: State, u: ThreadId, level: nat, f: Frame) {
    && level == |Stack(s, u)| - 1 && FrameAt(s, u, level) == Some(f) && f.Iterating? && f.calling.None?
    && f.context in s.heap && CursorLimit(f.maxIndex, |s.heap[f.context].slots|) == |s.heap[f.context].slots|
    && f.index <= |s.heap[f.context].slots|
  }

  lemma NextGoes(s: State, u: ThreadId, f: Frame)
    requires Happens(s, NextObserver(u)) && f == Stack(s, u)[|Stack(s, u)| - 1] && f.context in s.heap
    ensures var slots := s.heap[f.context].slots; var limit := CursorLimit(f.maxIndex, |slots|);
      var stop := SkipNulls(slots, f.index, limit);
      stop < limit ==> Exec(s, NextObserver(u)) == Next(Goto(s, u, f.(index := stop + 1, calling := slots[stop])))
  {
  }

  lemma NextHappens(s: State, u: ThreadId, f: Frame)
    requires Stack(s, u) != [] && f == Stack(s, u)[|Stack(s, u)| - 1] && f.Iterating? && f.calling.None?
    ensures Happens(s, NextObserver(u))
  {
  }

  /** GetNext in a loop that nobody disturbs. */
  lemma NextAlone(s: State, u: ThreadId, level: nat, f: Frame)
    requires Inv(s) && ReadyAlone(s, u, level, f)
    ensures Happens(s, NextObserver(u))
    ensures var s', slots := After(s, NextObserver(u)), s.heap[f.context].slots;
      var stop := SkipNulls(slots, f.index, |slots|);
      if stop < |slots| then
        && CallsAt(s, NextObserver(u), u, level) && CalledBy(s, NextObserver(u)) == slots[stop]
        && s' == Goto(s, u, f.(index := stop + 1, calling := slots[stop]))
      else
        && !CallsAt(s, NextObserver(u), u, level)
        && FrameAt(s', u, level) == Some(Leaving(f.context))
  {
    hide Inv, Exec, CallsAt, CalledBy, Goto, Happens, SkipNulls;
    ExecSafe(s, NextObserver(u));
    assert FrameAt(s, u, level) == Some(Stack(s, u)[level]);
    NextHappens(s, u, f);
    hide FrameAt, Stack;
    LoopMoves(s, NextObserver(u), u, level);
    NextGoes(s, u, f);
  }

  lemma ReturnGoes(s: State, u: ThreadId, f: Frame)
    requires Stack(s, u) != [] && f == Stack(s, u)[|Stack(s, u)| - 1] && f.Iterating? && f.calling.Some?
    ensures Exec(s, ObserverReturns(u)) == Next(Goto(s, u, f.(calling := None)))
  {
  }

  lemma ReturnAlone(s: State, u: ThreadId, level: nat, f: Frame)
    requires Inv(s) && level == |Stack(s, u)| - 1 && FrameAt(s, u, level) == Some(f) && f.Iterating? && f.calling.Some?
    ensures After(s, ObserverReturns(u)) == Goto(s, u, f.(calling := None)) && !CallsAt(s, ObserverReturns(u), u, level)
    ensures Inv(After(s, ObserverReturns(u)))
  {
    ExecSafe(s, ObserverReturns(u));
    ReturnGoes(s, u, f);
    hide Inv, Exec, Goto;
  }

  lemma AfterGoto(s: State, u: ThreadId, level: nat, f: Frame)
    requires Stack(s, u) != [] && level == |Stack(s, u)| - 1
    ensures var s' := Goto(s, u, f); |Stack(s', u)| == level + 1 && FrameAt(s', u, level) == Some(f) && s'.heap == s.heap
  {
  }

  lemma OneTurn(s: State, u: ThreadId, level: nat, n: nat)
    requires n > 0
    ensures var s1 := After(s, NextObserver(u)); var s2 := After(s1, ObserverReturns(u));
      && (Loops(s, Turns(u, n), u, level) <==>
            AtWork(FrameAt(s, u, level)) && AtWork(FrameAt(s1, u, level)) && Loops(s2, Turns(u, n - 1), u, level))
      && CalledAt(s, Turns(u, n), u, level) ==
           (if CallsAt(s, NextObserver(u), u, level) then [CalledBy(s, NextObserver(u)).value] else []) + CalledAt(s2, Turns(u, n - 1), u, level)
  {
    assert !CallsAt(After(s, NextObserver(u)), ObserverReturns(u), u, level);
    Empty(CalledAt(After(After(s, NextObserver(u)), ObserverReturns(u)), Turns(u, n - 1), u, level));
    var all := Turns(u, n);
    assert all[1..][1..] == Turns(u, n - 1) && all[0] == NextObserver(u) && all[1..][0] == ObserverReturns(u);
    hide After, CallsAt, CalledBy, AtWork, FrameAt;
  }

  function NextFrame(s: State, f: Frame): Frame
    requires f.Iterating? && f.context in s.heap
  {
    var slots := s.heap[f.context].slots;
    f.(index := SkipNulls(slots, f.index, |slots|) + 1, calling := None)
  }

  /** One turn of such a loop: it calls the next observer, whose method returns at once. */
  lemma TurnAlone(s: State, u: ThreadId, level: nat, f: Frame)
    requires Inv(s) && ReadyAlone(s, u, level, f)
    requires SkipNulls(s.heap[f.context].slots, f.index, |s.heap[f.context].slots|) < |s.heap[f.context].slots|
    ensures var s1 := After(s, NextObserver(u)); var s2 := After(s1, ObserverReturns(u)); var slots := s.heap[f.context].slots;
      && Inv(s2) && level == |Stack(s2, u)| - 1 && FrameAt(s2, u, level) == Some(NextFrame(s, f)) && s2.heap == s.heap
      && CallsAt(s, NextObserver(u), u, level)
      && CalledBy(s, NextObserver(u)) == slots[SkipNulls(slots, f.index, |slots|)]
      && AtWork(FrameAt(s1, u, level))
  {
    hide Inv, Exec, Happens, CallsAt, CalledBy, Goto;
    var slots := s.heap[f.context].slots;
    NextAlone(s, u, level, f);
    var stop := SkipNulls(slots, f.index, |slots|);
    var s1, f1 := After(s, NextObserver(u)), f.(index := stop + 1, calling := slots[stop]);
    ExecSafe(s, NextObserver(u));
    AfterGoto(s, u, level, f1);
    ReturnAlone(s1, u, level, f1);
    AfterGoto(s1, u, level, f1.(calling := None));
  }

  function Remaining(s: State, f: Frame): seq<Observer>
    requires f.Iterating? && f.context in s.heap && f.index <= |s.heap[f.context].slots|
  {
    Contents(s.heap[f.context].slots[f.index..])
  }

  lemma LoopEndsAlone(s: State, u: ThreadId, level: nat, f: Frame)
    requires Inv(s) && ReadyAlone(s, u, level, f) && Remaining(s, f) == []
    ensures Loops(s, Turns(u, 0), u, level) && CalledAt(s, Turns(u, 0), u, level) == []
  {
    ContentsFrom(s.heap[f.context].slots, f.index);
    NextAlone(s, u, level, f);
    NoTurn(s, u, level);
    hide Inv, Contents, Turns, CallsAt, CalledBy, FrameAt, After, Loops, CalledAt, Happens, Stack;
  }

  function Twice(s: State, u: ThreadId): State {
    After(After(s, NextObserver(u)), ObserverReturns(u))
  }

  /** A turn calls the first observer that remains, and the loop goes on behind it. */
  ghost predicate Turned(s: State, u: ThreadId, level: nat, f: Frame, next: Frame) {
    && ReadyAlone(s, u, level, f) && Inv(Twice(s, u)) && ReadyAlone(Twice(s, u), u, level, next)
    && CallsAt(s, NextObserver(u), u, level)
    && Remaining(s, f) == [CalledBy(s, NextObserver(u)).value] + Remaining(Twice(s, u), next)
    && AtWork(FrameAt(After(s, NextObserver(u)), u, level))
  }

  lemma RemainingTurn(s: State, s': State, f: Frame, next: Frame)
    requires f.Iterating? && f.context in s.heap && f.index <= |s.heap[f.context].slots| && Remaining(s, f) != [] && s'.heap == s.heap
    requires next == NextFrame(s, f)
    ensures var slots := s.heap[f.context].slots; var stop := SkipNulls(slots, f.index, |slots|);
      && stop < |slots| && slots[stop].Some? && next.index <= |slots|
      && Remaining(s, f) == [slots[stop].value] + Remaining(s', next)
  {
    ContentsFrom(s.heap[f.context].slots, f.index);
  }

  lemma LoopTurnsAlone(s: State, u: ThreadId, level: nat, f: Frame)
    requires Inv(s) && ReadyAlone(s, u, level, f) && Remaining(s, f) != []
    ensures Turned(s, u, level, f, NextFrame(s, f))
  {
    ContentsFrom(s.heap[f.context].slots, f.index);
    hide Inv, Contents, CallsAt, CalledBy, After, AtWork, Stack, FrameAt;
    TurnAlone(s, u, level, f);
    hide Remaining;
    RemainingTurn(s, Twice(s, u), f, NextFrame(s, f));
  }

  lemma TurnJoins(s: State, u: ThreadId, level: nat, f: Frame, next: Frame, n: nat)
    requires n > 0 && Turned(s, u, level, f, next)
    requires Loops(Twice(s, u), Turns(u, n - 1), u, level)
    requires CalledAt(Twice(s, u), Turns(u, n - 1), u, level) == Remaining(Twice(s, u), next)
    ensures Loops(s, Turns(u, n), u, level) && CalledAt(s, Turns(u, n), u, level) == Remaining(s, f)
  {
    OneTurn(s, u, level, n);
    hide Inv, CallsAt, CalledBy, After, Loops, CalledAt, Turns, Remaining, Stack;
  }

  lemma TurnedFacts(s: State, u: ThreadId, level: nat, f: Frame, next: Frame)
    requires Turned(s, u, level, f, next)
    ensures Inv(Twice(s, u)) && ReadyAlone(Twice(s, u), u, level, next)
    ensures |Remaining(s, f)| == 1 + |Remaining(Twice(s, u), next)|
  {
    hide Inv, CallsAt, CalledBy, After, Twice, Stack, Remaining;
  }

  lemma {:induction false} LoopAlone(s: State, u: ThreadId, level: nat, f: Frame, n: nat)
    requires Inv(s) && ReadyAlone(s, u, level, f) && n == |Remaining(s, f)|
    ensures Loops(s, Turns(u, n), u, level)
    ensures CalledAt(s, Turns(u, n), u, level) == Remaining(s, f)
    decreases n
  {
    hide Inv, Stack, FrameAt, Remaining, Loops, CalledAt, Turns, Turned, Twice, CursorLimit, NextFrame;
    if n == 0 {
      LoopEndsAlone(s, u, level, f);
    } else {
      var next := NextFrame(s, f);
      LoopTurnsAlone(s, u, level, f);
      TurnedFacts(s, u, level, f, next);
      LoopAlone(Twice(s, u), u, level, next, n - 1);
      TurnJoins(s, u, level, f, next, n);
    }
  }

  lemma NoTurn(s: State, u: ThreadId, level: nat)
    ensures Loops(s, Turns(u, 0), u, level) <==>
      AtWork(FrameAt(s, u, level)) && FrameAt(After(s, NextObserver(u)), u, level).Some? && FrameAt(After(s, NextObserver(u)), u, level).value.Leaving?
    ensures CalledAt(s, Turns(u, 0), u, level) == if CallsAt(s, NextObserver(u), u, level) then [CalledBy(s, NextObserver(u)).value] else []
  {
    hide After, CallsAt, CalledBy, AtWork, FrameAt;
    assert Turns(u, 0)[1..] == [];
    assert CalledAt(After(s, NextObserver(u)), [], u, level) == [];
  }

  lemma BeginAlone(s: State, u: ThreadId, level: nat, c: Address)
    requires Inv(s) && FrameAt(s, u, level) == Some(Entering(c))
    ensures var s' := After(s, BeginIteration(u));
      && Inv(s') && c in s.heap && c in s'.heap && s'.heap[c].slots == s.heap[c].slots && FrameAt(s', u, level).Some?
      && ReadyAlone(s', u, level, FrameAt(s', u, level).value)
      && Remaining(s', FrameAt(s', u, level).value) == Contents(s.heap[c].slots)
  {
    ExecSafe(s, BeginIteration(u));
    EnteringIsTop(s, u, level);
    hide Inv, Exec, Contents;
    BeginFrame(s, u, level, c);
    var slots := s.heap[c].slots;
    assert slots[0..] == slots;
  }

  /** The loop of a task's call, from its start. */
  lemma CallAlone(s: State, u: ThreadId, level: nat, c: Address)
    requires Inv(s) && FrameAt(s, u, level) == Some(Entering(c)) && c in s.heap
    ensures var all := Contents(s.heap[c].slots); var loop := [BeginIteration(u)] + Turns(u, |all|);
      Loops(s, loop, u, level) && CalledAt(s, loop, u, level) == all
  {
    var all, s' := Contents(s.heap[c].slots), After(s, BeginIteration(u));
    EnteringIsTop(s, u, level);
    OnlyBegins(s, BeginIteration(u), u, level, c);
    BeginAlone(s, u, level, c);
    LoopAlone(s', u, level, FrameAt(s', u, level).value, |all|);
    hide Inv, Turns, After, CallsAt, ReadyAlone, Remaining, Contents;
    var loop := [BeginIteration(u)] + Turns(u, |all|);
    assert loop[0] == BeginIteration(u) && loop[1..] == Turns(u, |all|);
    Empty(CalledAt(s', Turns(u, |all|), u, level));
  }

  /** A notification that nothing disturbs calls the observers of each thread's list, each once and in order. */
  lemma UndisturbedNotification(s: State, caller: ThreadId, u: ThreadId, task: Task)
    requires Inv(s) && Happens(s, Notify(caller)) && Addressed(s, task) && task.thread == u && InClientCode(Stack(s, u))
    ensures var s1 := After(s, Notify(caller)); var s2 := After(s1, RunTask(task)); var level := |Stack(s, u)|;
      var loop := [BeginIteration(u)] + Turns(u, |Visible(s, u)|);
      && Happens(s1, RunTask(task)) && Loops(s2, loop, u, level) && CalledAt(s2, loop, u, level) == Visible(s, u)
  {
    var s1, c, level := After(s, Notify(caller)), task.context, |Stack(s, u)|;
    NotifyPostsOneEach(s, caller);
    ExecSafe(s, Notify(caller));
    assert s1.tasks[task] > 0;
    hide Exec, Turns, Contents, Loops, CalledAt;
    TaskStarts(s1, task);
    CallAlone(After(s1, RunTask(task)), u, level, c);
  }
}
