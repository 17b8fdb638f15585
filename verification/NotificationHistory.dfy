/**
 base/observer_list_threadsafe.h: what its clients see.  Which observers are registered, and
 which are called, is told here from the sequence of what happened alone: the calls that
 client code made, their completion, and the calls that notification loops made.
 */
module NotificationHistory {
  import opened Sequences
  import opened Wrappers
  import opened ObserverList
  import opened ObserverListThreadSafe

  // ----- what happens in a run -----

  /** The code that the call on top of a thread's stack is about to run. */
  predicate Waits(f: Frame, e: Event) {
    match e
    case AddToList(_) => f.Adding?
    case RemoveFromList(_) => f.Removing?
    case FinishRemove(_) => f.AfterRemove?
    case BeginIteration(_) => f.Entering?
    case NextObserver(_) => f.Iterating? && f.calling.None?
    case ObserverReturns(_) => f.Iterating? && f.calling.Some?
    case TestEmpty(_) => f.Leaving?
    case Unmap(_) => f.Unmapping?
    case Delete(_) => f.Deleting?
    case _ => false
  }

  predicate Starts(e: Event) {
    e.CallAdd? || e.CallRemove? || e.Notify? || e.RunTask? || e.DropTask? || e.SetLoop?
  }

  /** A thread can only do what comes next in its code, and no allocator returns memory in use. */
  predicate Happens(s: State, e: Event) {
    var stack := Stack(s, Actor(e));
    match e
    case CallAdd(t, _, storage) => InClientCode(stack) && (t in s.looping && t !in s.lists ==> storage !in s.heap)
    case CallRemove(_, _) => InClientCode(stack)
    case Notify(_) => InClientCode(stack)
    case RunTask(task) => InClientCode(stack) && task in s.tasks
    case DropTask(task) => task in s.tasks
    case SetLoop(_, _) => true
    case _ => stack != [] && Waits(stack[|stack| - 1], e)
  }

  lemma NothingHappens(s: State, e: Event)
    requires !Happens(s, e)
    ensures Exec(s, e) == Next(s)
  {
    if e.DropTask? {
      assert s.tasks - multiset{e.task} == s.tasks;
    }
  }

  /** The observer whose method the thread is in. */
  function Calling(stack: seq<Frame>): Option<Observer> {
    if stack == [] || !stack[|stack| - 1].Iterating? then None else stack[|stack| - 1].calling
  }

  /** The observer that a step calls. */
  function CalledBy(s: State, e: Event): Option<Observer> {
    if e.NextObserver? && Happens(s, e) && Exec(s, e).Next? then Calling(Stack(Exec(s, e).state, e.thread)) else None
  }

  /** Something that happened, and the observer that was called then. */
  datatype Occurrence = Occurrence(event: Event, called: Option<Observer>)

  function OneOccurrence(s: State, e: Event): seq<Occurrence> {
    if Happens(s, e) then [Occurrence(e, CalledBy(s, e))] else []
  }

  function Log(s: State, events: seq<Event>): seq<Occurrence>
    decreases |events|
  {
    if events == [] then []
    else
      OneOccurrence(s, events[0]) + match Exec(s, events[0]) case Next(s') => Log(s', events[1..]) case _ => []
  }

  // ----- registration, told from the log -----

  predicate AddCall(e: Event, t: ThreadId) {
    e.CallAdd? && e.thread == t
  }

  predicate RemovalOf(e: Event, t: ThreadId, obs: Observer) {
    e.CallRemove? && e.thread == t && e.obs == obs
  }

  /** A call of AddObserver on t, and its completion. */
  predicate Addition(log: seq<Occurrence>, i: int, j: int, t: ThreadId, obs: Observer) {
    && 0 <= i < j < |log|
    && AddCall(log[i].event, t) && log[i].event.obs == obs
    && log[j].event == AddToList(t)
    && forall k :: i < k < j ==> !AddCall(log[k].event, t)
  }

  /** AddObserver(obs) has completed on t, and RemoveObserver(obs) has not been called there since. */
  ghost predicate RegisteredIn(log: seq<Occurrence>, t: ThreadId, obs: Observer) {
    exists i, j :: Addition(log, i, j, t, obs) && forall k :: i < k < |log| ==> !RemovalOf(log[k].event, t, obs)
  }

  /** The thread is in AddObserver(obs). */
  ghost predicate InAdd(log: seq<Occurrence>, t: ThreadId, obs: Observer) {
    exists i :: 0 <= i < |log| && AddCall(log[i].event, t) && log[i].event.obs == obs
      && forall k :: i < k < |log| ==> !AddCall(log[k].event, t) && !RemovalOf(log[k].event, t, obs)
  }

  function AddingOn(stack: seq<Frame>): Option<Observer> {
    if stack != [] && stack[|stack| - 1].Adding? then Some(stack[|stack| - 1].obs) else None
  }

  function TopAdding(s: State, t: ThreadId): Option<Observer> {
    AddingOn(Stack(s, t))
  }

  ghost predicate HistoryOk(s: State, log: seq<Occurrence>) {
    && (forall t: ThreadId, obs: Observer :: (t, obs) in s.registered <==> RegisteredIn(log, t, obs))
    && (forall t: ThreadId :: TopAdding(s, t).Some? ==> InAdd(log, t, TopAdding(s, t).value))
  }

  // What one step does to the set of registrations and to the calls of AddObserver in progress.

  function RegisteredAfter(s: State, e: Event): set<(ThreadId, Observer)> {
    match e
    case CallRemove(t, obs) => s.registered - {(t, obs)}
    case AddToList(t) => s.registered + if TopAdding(s, t).Some? then {(t, TopAdding(s, t).value)} else {}
    case _ => s.registered
  }

  lemma RegistrationStep(s: State, e: Event)
    requires Happens(s, e) && Exec(s, e).Next?
    ensures Exec(s, e).state.registered == RegisteredAfter(s, e)
  {
  }

  function AddingAfter(s: State, e: Event, u: ThreadId): Option<Observer> {
    if AddCall(e, u) && u in s.looping then Some(e.obs)
    else if e == AddToList(u) then None
    else TopAdding(s, u)
  }

  lemma TopBelow(s: State, t: ThreadId)
    requires Inv(s) && Stack(s, t) != []
    ensures var below := Stack(s, t)[..|Stack(s, t)| - 1]; below != [] ==> below[|below| - 1].Iterating?
  {
    assert StackOk(s.heap, t, Stack(s, t));
  }

  /** The call on top goes on or returns, and nobody else's does. */
  lemma TopFrames(s: State, t: ThreadId, e: Event, f: Frame)
    requires Stack(s, t) != [] && Waits(f, e) && DoTop(s, t, e, f).Next?
    ensures var s', below := DoTop(s, t, e, f).state, Stack(s, t)[..|Stack(s, t)| - 1];
      && (forall u: ThreadId :: u != t ==> Stack(s', u) == Stack(s, u))
      && (Stack(s', t) == below ||
          (|Stack(s', t)| == |below| + 1 && Stack(s', t)[..|below|] == below && !Stack(s', t)[|below|].Adding?))
      && (e.AddToList? ==> Stack(s', t) == below)
  {
  }

  lemma ExecIsTop(s: State, e: Event, f: Frame)
    requires Stack(s, Actor(e)) != [] && f == Stack(s, Actor(e))[|Stack(s, Actor(e))| - 1] && !Starts(e)
    ensures Exec(s, e) == DoTop(s, Actor(e), e, f)
  {
    hide DoTop;
  }

  /** A call or a task that starts puts at most its own frame on its thread's stack. */
  lemma StartedFrames(s: State, e: Event)
    requires Happens(s, e) && Starts(e) && Exec(s, e).Next?
    ensures var s', t, stack := Exec(s, e).state, Actor(e), Stack(s, Actor(e));
      && (forall u: ThreadId :: u != t ==> Stack(s', u) == Stack(s, u))
      && if e.CallAdd? && t in s.looping then
           Stack(s', t) == stack + [Adding(if t in s.lists then s.lists[t] else e.storage, e.obs)]
         else Stack(s', t) == stack || (exists f: Frame :: !f.Adding? && !f.Iterating? && Stack(s', t) == stack + [f] && InClientCode(stack))
  {
    var s', t, stack := Exec(s, e).state, Actor(e), Stack(s, Actor(e));
    if Stack(s', t) != stack && !e.CallAdd? {
      assert Stack(s', t) == stack + [Stack(s', t)[|stack|]];
    }
  }

  lemma AddingStarts(s: State, e: Event, u: ThreadId)
    requires Happens(s, e) && Starts(e) && Exec(s, e).Next?
    ensures TopAdding(Exec(s, e).state, u) == AddingAfter(s, e, u)
  {
    StartedFrames(s, e);
    assert (e.CallAdd? || e.CallRemove? || e.RunTask? || e.Notify?) ==> InClientCode(Stack(s, Actor(e)));
    hide Exec, Happens;
  }

  lemma AddingFrames(s: State, e: Event)
    requires Inv(s) && Happens(s, e) && !Starts(e) && Exec(s, e).Next?
    ensures forall u: ThreadId :: u != Actor(e) ==> Stack(Exec(s, e).state, u) == Stack(s, u)
    ensures TopAdding(Exec(s, e).state, Actor(e)) == None
    ensures TopAdding(s, Actor(e)).Some? <==> e.AddToList?
  {
    var t := Actor(e);
    var stack := Stack(s, t);
    var f := stack[|stack| - 1];
    TopBelow(s, t);
    ExecIsTop(s, e, f);
    TopFrames(s, t, e, f);
    assert e.AddToList? <==> f.Adding?;
    hide Inv, DoTop, Exec, Happens, Waits;
    NotAdding(stack, Stack(DoTop(s, t, e, f).state, t));
  }

  lemma AddingAfterCall(s: State, e: Event, u: ThreadId)
    requires !Starts(e)
    ensures AddingAfter(s, e, u) == if e == AddToList(u) then None else TopAdding(s, u)
    ensures e.AddToList? ==> e == AddToList(Actor(e))
  {
    hide TopAdding;
  }

  lemma AddingGoesOn(s: State, e: Event, u: ThreadId)
    requires Inv(s) && Happens(s, e) && !Starts(e) && Exec(s, e).Next?
    ensures TopAdding(Exec(s, e).state, u) == AddingAfter(s, e, u)
  {
    AddingFrames(s, e);
    AddingAfterCall(s, e, u);
    assert u != Actor(e) ==> TopAdding(Exec(s, e).state, u) == TopAdding(s, u);
    hide *;
  }

  lemma NotAdding(stack: seq<Frame>, after: seq<Frame>)
    requires stack != []
    requires var below := stack[..|stack| - 1];
      && (below != [] ==> below[|below| - 1].Iterating?)
      && (after == below || (|after| == |below| + 1 && after[..|below|] == below && !after[|below|].Adding?))
    ensures AddingOn(after) == None
  {
  }

  lemma AddingStep(s: State, e: Event, u: ThreadId)
    requires Inv(s) && Happens(s, e) && Exec(s, e).Next?
    ensures TopAdding(Exec(s, e).state, u) == AddingAfter(s, e, u)
  {
    hide *;
    if Starts(e) {
      AddingStarts(s, e, u);
    } else {
      AddingGoesOn(s, e, u);
    }
  }

  lemma AdditionBefore(log: seq<Occurrence>, o: Occurrence, i: int, j: int, t: ThreadId, obs: Observer)
    requires j < |log|
    ensures Addition(log + [o], i, j, t, obs) <==> Addition(log, i, j, t, obs)
  {
    assert forall k :: 0 <= k < |log| ==> (log + [o])[k] == log[k];
  }

  lemma AddedNow(log: seq<Occurrence>, o: Occurrence, t: ThreadId, obs: Observer, other: Observer)
    requires o.event == AddToList(t) && InAdd(log, t, obs)
    ensures RegisteredIn(log + [o], t, other) <==> RegisteredIn(log, t, other) || other == obs
  {
    var all := log + [o];
    if RegisteredIn(log, t, other) {
      var i, j :| Addition(log, i, j, t, other) && forall k :: i < k < |log| ==> !RemovalOf(log[k].event, t, other);
      assert Addition(all, i, j, t, other);
    }
    if other == obs {
      var i :| 0 <= i < |log| && AddCall(log[i].event, t) && log[i].event.obs == obs
        && forall k :: i < k < |log| ==> !AddCall(log[k].event, t) && !RemovalOf(log[k].event, t, obs);
      assert Addition(all, i, |log|, t, obs);
    }
    if RegisteredIn(all, t, other) && other != obs {
      var i, j :| Addition(all, i, j, t, other) && forall k :: i < k < |all| ==> !RemovalOf(all[k].event, t, other);
      var last :| 0 <= last < |log| && AddCall(log[last].event, t) && log[last].event.obs == obs
        && forall k :: last < k < |log| ==> !AddCall(log[k].event, t) && !RemovalOf(log[k].event, t, obs);
      assert all[last] == log[last] && i < |log| && all[i] == log[i];
      assert j == |log| ==> i == last;
      AdditionBefore(log, o, i, j, t, other);
      assert forall k :: i < k < |log| ==> all[k] == log[k];
    }
  }

  /** Anything else leaves registrations as they are, except for the observer it removes. */
  lemma NothingAdded(log: seq<Occurrence>, o: Occurrence, t: ThreadId, obs: Observer)
    requires o.event != AddToList(t)
    ensures RegisteredIn(log + [o], t, obs) <==> RegisteredIn(log, t, obs) && !RemovalOf(o.event, t, obs)
  {
    var all := log + [o];
    if RegisteredIn(log, t, obs) && !RemovalOf(o.event, t, obs) {
      var i, j :| Addition(log, i, j, t, obs) && forall k :: i < k < |log| ==> !RemovalOf(log[k].event, t, obs);
      assert Addition(all, i, j, t, obs);
    }
    if RegisteredIn(all, t, obs) {
      var i, j :| Addition(all, i, j, t, obs) && forall k :: i < k < |all| ==> !RemovalOf(all[k].event, t, obs);
      assert all[|log|] == o;
      AdditionBefore(log, o, i, j, t, obs);
      assert forall k :: i < k < |log| ==> all[k] == log[k];
    }
  }

  lemma InAddStays(log: seq<Occurrence>, o: Occurrence, t: ThreadId, obs: Observer)
    requires InAdd(log, t, obs) && !AddCall(o.event, t) && !RemovalOf(o.event, t, obs)
    ensures InAdd(log + [o], t, obs)
  {
    var i :| 0 <= i < |log| && AddCall(log[i].event, t) && log[i].event.obs == obs
      && forall k :: i < k < |log| ==> !AddCall(log[k].event, t) && !RemovalOf(log[k].event, t, obs);
    assert (log + [o])[i] == log[i];
  }

  lemma InAddBegins(log: seq<Occurrence>, o: Occurrence, t: ThreadId)
    requires AddCall(o.event, t)
    ensures InAdd(log + [o], t, o.event.obs)
  {
    assert (log + [o])[|log|] == o;
  }

  /** A thread in AddObserver makes no call of the list's until it is done. */
  lemma BusyAdding(s: State, e: Event)
    requires Happens(s, e) && (e.CallAdd? || e.CallRemove?)
    ensures TopAdding(s, e.thread).None?
  {
  }

  lemma RegistrationsOk(s: State, log: seq<Occurrence>, e: Event, t: ThreadId, obs: Observer)
    requires HistoryOk(s, log) && Happens(s, e)
    ensures (t, obs) in RegisteredAfter(s, e) <==> RegisteredIn(log + [Occurrence(e, CalledBy(s, e))], t, obs)
  {
    var o := Occurrence(e, CalledBy(s, e));
    assert (t, obs) in s.registered <==> RegisteredIn(log, t, obs);
    assert e == AddToList(t) ==> TopAdding(s, t).Some?;
    hide RegisteredIn, InAdd, Exec, CalledBy, Happens, TopAdding;
    if e == AddToList(t) {
      AddedNow(log, o, t, TopAdding(s, t).value, obs);
    } else {
      NothingAdded(log, o, t, obs);
    }
  }

  lemma AddsOk(s: State, log: seq<Occurrence>, e: Event, t: ThreadId)
    requires HistoryOk(s, log) && Happens(s, e) && AddingAfter(s, e, t).Some?
    ensures InAdd(log + [Occurrence(e, CalledBy(s, e))], t, AddingAfter(s, e, t).value)
  {
    var o := Occurrence(e, CalledBy(s, e));
    if e.CallAdd? || e.CallRemove? {
      BusyAdding(s, e);
    }
    hide RegisteredIn, InAdd, Exec, CalledBy, Happens, TopAdding;
    if AddCall(e, t) && t in s.looping {
      InAddBegins(log, o, t);
    } else {
      InAddStays(log, o, t, TopAdding(s, t).value);
    }
  }

  lemma HistoryStep(s: State, log: seq<Occurrence>, e: Event)
    requires Inv(s) && HistoryOk(s, log) && Happens(s, e)
    ensures Exec(s, e).Next? && HistoryOk(Exec(s, e).state, log + [Occurrence(e, CalledBy(s, e))])
  {
    ExecSafe(s, e);
    RegistrationStep(s, e);
    var s', after := Exec(s, e).state, log + [Occurrence(e, CalledBy(s, e))];
    forall t: ThreadId, obs: Observer
      ensures (t, obs) in s'.registered <==> RegisteredIn(after, t, obs)
    {
      hide Inv, Exec, RegisteredIn, InAdd, HistoryOk, RegisteredAfter, Happens;
      RegistrationsOk(s, log, e, t, obs);
    }
    forall t: ThreadId | TopAdding(s', t).Some?
      ensures InAdd(after, t, TopAdding(s', t).value)
    {
      hide Inv, Exec, RegisteredIn, InAdd, TopAdding, Happens, HistoryOk, AddingAfter;
      AddingStep(s, e, t);
      AddsOk(s, log, e, t);
    }
    hide Inv, Exec, RegisteredIn, InAdd, TopAdding, Happens;
  }

  /** An observer that a step calls is registered. */
  lemma CalledWhenRegistered(s: State, e: Event)
    requires Inv(s) && CalledBy(s, e).Some?
    ensures (Actor(e), CalledBy(s, e).value) in s.registered
  {
    CalledIsRegistered(s, e.thread);
  }

  /** Every call in the log is of an observer registered, by what happened before, on the calling thread. */
  ghost predicate CallsRegistered(before: seq<Occurrence>, log: seq<Occurrence>) {
    forall i :: 0 <= i < |log| && log[i].called.Some? ==>
      RegisteredIn(before + log[..i], Actor(log[i].event), log[i].called.value)
  }

  lemma CallsInFront(before: seq<Occurrence>, first: seq<Occurrence>, rest: seq<Occurrence>)
    requires |first| <= 1 && CallsRegistered(before, first) && CallsRegistered(before + first, rest)
    ensures CallsRegistered(before, first + rest)
  {
    hide RegisteredIn;
    var all := first + rest;
    forall i | 0 <= i < |all| && all[i].called.Some?
      ensures RegisteredIn(before + all[..i], Actor(all[i].event), all[i].called.value)
    {
      if i < |first| {
        assert all[i] == first[i] && all[..i] == first[..i];
      } else {
        assert all[i] == rest[i - |first|];
        assert before + all[..i] == before + first + rest[..i - |first|];
      }
    }
  }

  lemma HistoryOfStep(s: State, log: seq<Occurrence>, e: Event)
    requires Inv(s) && HistoryOk(s, log)
    ensures Exec(s, e).Next? && HistoryOk(Exec(s, e).state, log + OneOccurrence(s, e))
    ensures CallsRegistered(log, OneOccurrence(s, e))
  {
    if Happens(s, e) {
      HistoryStep(s, log, e);
      if CalledBy(s, e).Some? {
        CalledWhenRegistered(s, e);
      }
      assert log + OneOccurrence(s, e)[..0] == log;
    } else {
      NothingHappens(s, e);
      Empty(log);
    }
  }

  lemma {:induction false} HistoryOfRun(s: State, before: seq<Occurrence>, events: seq<Event>)
    requires Inv(s) && HistoryOk(s, before)
    ensures Run(s, events).Next? && HistoryOk(Run(s, events).state, before + Log(s, events))
    ensures CallsRegistered(before, Log(s, events))
    decreases |events|
  {
    if events == [] {
      Empty(before);
    } else {
      ExecSafe(s, events[0]);
      HistoryOfStep(s, before, events[0]);
      var s', first := Exec(s, events[0]).state, OneOccurrence(s, events[0]);
      hide Inv, HistoryOk, CallsRegistered, Exec, CalledBy, Happens;
      HistoryOfRun(s', before + first, events[1..]);
      Regroup(before, first, Log(s', events[1..]));
      CallsInFront(before, first, Log(s', events[1..]));
    }
  }

  lemma NothingYet(kind: NotificationType)
    ensures Inv(Initial(kind)) && HistoryOk(Initial(kind), [])
  {
    InitialIsSafe(kind);
  }

  // ----- the results -----

  /** In every run, the observers registered are those that AddObserver and RemoveObserver have left so. */
  lemma RegisteredFromHistory(kind: NotificationType, events: seq<Event>)
    ensures Run(Initial(kind), events).Next?
    ensures forall t: ThreadId, obs: Observer ::
      (t, obs) in Run(Initial(kind), events).state.registered <==> RegisteredIn(Log(Initial(kind), events), t, obs)
  {
    NothingYet(kind);
    HistoryOfRun(Initial(kind), [], events);
    Empty(Log(Initial(kind), events));
    hide Log, Run, RegisteredIn;
  }

  /**
   Delivery safety: in every run, each observer called is called on a thread where AddObserver
   has completed for it and RemoveObserver has not been called for it since.
   */
  lemma DeliveriesAreRegistered(kind: NotificationType, events: seq<Event>)
    ensures Run(Initial(kind), events).Next?
    ensures var log := Log(Initial(kind), events);
      forall i :: 0 <= i < |log| && log[i].called.Some? ==> RegisteredIn(log[..i], Actor(log[i].event), log[i].called.value)
  {
    NothingYet(kind);
    HistoryOfRun(Initial(kind), [], events);
    var log := Log(Initial(kind), events);
    forall i | 0 <= i < |log| && log[i].called.Some?
      ensures RegisteredIn(log[..i], Actor(log[i].event), log[i].called.value)
    {
      Empty(log[..i]);
      hide Log, Run, RegisteredIn;
    }
  }

  /** Once RemoveObserver has been called on a thread, the observer is called there only after AddObserver has been called again. */
  lemma RemovedIsSilent(kind: NotificationType, events: seq<Event>, t: ThreadId, obs: Observer, i: nat, k: nat)
    requires var log := Log(Initial(kind), events);
      && i < k < |log| && RemovalOf(log[i].event, t, obs)
      && Actor(log[k].event) == t && log[k].called == Some(obs)
    ensures var log := Log(Initial(kind), events); exists j :: i < j < k && AddCall(log[j].event, t) && log[j].event.obs == obs
  {
    DeliveriesAreRegistered(kind, events);
    var log := Log(Initial(kind), events);
    var before := log[..k];
    assert RegisteredIn(before, t, obs);
    var j, end :| Addition(before, j, end, t, obs) && forall l :: j < l < |before| ==> !RemovalOf(before[l].event, t, obs);
    assert before[i] == log[i] && before[j] == log[j];
  }

  // ----- what a whole call does -----

  /** A step of a run; by ExecSafe no step faults. */
  function After(s: State, e: Event): State {
    match Exec(s, e) case Next(s') => s' case _ => s
  }

  function AfterAll(s: State, events: seq<Event>): State
    decreases |events|
  {
    if events == [] then s else AfterAll(After(s, events[0]), events[1..])
  }

  lemma {:induction false} AfterAllSafe(s: State, events: seq<Event>)
    requires Inv(s)
    ensures Inv(AfterAll(s, events)) && Run(s, events) == Next(AfterAll(s, events))
    decreases |events|
  {
    if events != [] {
      ExecSafe(s, events[0]);
      AfterAllSafe(After(s, events[0]), events[1..]);
    }
  }

  /** Not done by the code of thread t. */
  predicate ByOthers(e: Event, t: ThreadId) {
    Actor(e) == t ==> e.DropTask? || e.SetLoop?
  }

  /** The observers that a thread's list would notify now, in order. */
  function Visible(s: State, t: ThreadId): seq<Observer> {
    if t in s.lists && s.lists[t] in s.heap then Contents(s.heap[s.lists[t]].slots) else []
  }

  ghost predicate SameFor(s: State, s': State, t: ThreadId) {
    && Stack(s', t) == Stack(s, t)
    && (t in s'.lists <==> t in s.lists) && (t in s.lists ==> s'.lists[t] == s.lists[t])
    && (forall c <- s.heap :: s.heap[c].owner == t ==> c in s'.heap && s'.heap[c] == s.heap[c])
  }

  lemma TopIsElsewhere(s: State, u: ThreadId, e: Event, f: Frame, t: ThreadId)
    requires Stack(s, u) != [] && u != t && f.context in s.heap && s.heap[f.context].owner == u
    requires DoTop(s, u, e, f).Next?
    ensures SameFor(s, DoTop(s, u, e, f).state, t)
  {
  }

  lemma AddIsElsewhere(s: State, u: ThreadId, obs: Observer, storage: Address, t: ThreadId)
    requires u != t && DoCallAdd(s, u, obs, storage).Next?
    ensures SameFor(s, DoCallAdd(s, u, obs, storage).state, t)
  {
  }

  lemma RemoveIsElsewhere(s: State, u: ThreadId, obs: Observer, t: ThreadId)
    requires u != t && DoCallRemove(s, u, obs).Next?
    ensures SameFor(s, DoCallRemove(s, u, obs).state, t)
  {
  }

  lemma NotifyIsElsewhere(s: State, t: ThreadId)
    requires DoNotify(s).Next?
    ensures SameFor(s, DoNotify(s).state, t)
  {
  }

  lemma RunIsElsewhere(s: State, task: Task, t: ThreadId)
    requires task.thread != t
    ensures SameFor(s, DoRunTask(s, task).state, t)
  {
  }

  lemma StartIsElsewhere(s: State, e: Event, t: ThreadId)
    requires Starts(e) && ByOthers(e, t) && Exec(s, e).Next?
    ensures SameFor(s, Exec(s, e).state, t)
  {
    hide InClientCode, DoCallAdd, DoCallRemove, DoNotify, DoRunTask;
    if Exec(s, e) != Next(s) {
      match e
      case CallAdd(u, obs, storage) => AddIsElsewhere(s, u, obs, storage, t);
      case CallRemove(u, obs) => RemoveIsElsewhere(s, u, obs, t);
      case Notify(_) => NotifyIsElsewhere(s, t);
      case RunTask(task) => RunIsElsewhere(s, task, t);
      case _ =>
    }
  }

  lemma OthersLeaveAlone(s: State, e: Event, t: ThreadId)
    requires Inv(s) && ByOthers(e, t)
    ensures Inv(After(s, e)) && SameFor(s, After(s, e), t)
  {
    ExecSafe(s, e);
    var u := Actor(e);
    if Starts(e) {
      StartIsElsewhere(s, e, t);
    } else if Stack(s, u) != [] {
      var f := Stack(s, u)[|Stack(s, u)| - 1];
      TopContext(s, u, f);
      ExecIsTop(s, e, f);
      hide Inv, DoTop, Exec, SameFor;
      TopIsElsewhere(s, u, e, f, t);
    } else {
      NothingHappens(s, e);
    }
    hide Inv, Exec, SameFor;
  }

  lemma {:induction false} OthersRun(s: State, events: seq<Event>, t: ThreadId)
    requires Inv(s) && forall e <- events :: ByOthers(e, t)
    ensures Inv(AfterAll(s, events)) && SameFor(s, AfterAll(s, events), t)
    decreases |events|
  {
    if events != [] {
      OthersLeaveAlone(s, events[0], t);
      hide Inv, After, SameFor, ByOthers;
      OthersRun(After(s, events[0]), events[1..], t);
      hide *;
      SameForTransitive(s, After(s, events[0]), AfterAll(After(s, events[0]), events[1..]), t);
      assert AfterAll(After(s, events[0]), events[1..]) == AfterAll(s, events) by {
        AfterAllStep(s, events);
      }
    }
  }

  lemma AfterAllStep(s: State, events: seq<Event>)
    requires events != []
    ensures AfterAll(s, events) == AfterAll(After(s, events[0]), events[1..])
  {
  }

  lemma SameForTransitive(a: State, b: State, c: State, t: ThreadId)
    requires SameFor(a, b, t) && SameFor(b, c, t)
    ensures SameFor(a, c, t)
  {
  }

  lemma AddBegins(s: State, t: ThreadId, obs: Observer, storage: Address)
    requires Inv(s) && Happens(s, CallAdd(t, obs, storage)) && t in s.looping
    ensures var s' := After(s, CallAdd(t, obs, storage));
      && Inv(s') && t in s'.lists && s'.lists[t] in s'.heap && s'.heap[s'.lists[t]].owner == t
      && Stack(s', t) == Stack(s, t) + [Adding(s'.lists[t], obs)] && Visible(s', t) == Visible(s, t)
  {
    ExecSafe(s, CallAdd(t, obs, storage));
    InvAt(s, t);
    hide Inv, InClientCode, ContextOk, StackOk, Notifiable;
  }

  lemma AddEnds(s: State, t: ThreadId, obs: Observer, below: seq<Frame>)
    requires Inv(s) && t in s.lists && Stack(s, t) == below + [Adding(s.lists[t], obs)]
    ensures var s' := After(s, AddToList(t));
      && Happens(s, AddToList(t)) && Inv(s') && Stack(s', t) == below
      && Visible(s', t) == if obs in Visible(s, t) then Visible(s, t) else Visible(s, t) + [obs]
  {
    ExecSafe(s, AddToList(t));
    InvAt(s, t);
    AddKeepsOrder(s.heap[s.lists[t]].slots, obs);
    assert (below + [Adding(s.lists[t], obs)])[..|below|] == below;
    hide Inv, StackOk, Notifiable, Added, Contents;
  }

  /**
   AddObserver as a whole, whatever other threads do in the middle of it: on a thread with a
   message loop the observer is last in the thread's list, unless it was there; without one
   nothing happens.
   */
  lemma AddObserverAdds(s: State, t: ThreadId, obs: Observer, storage: Address, others: seq<Event>)
    requires Inv(s) && Happens(s, CallAdd(t, obs, storage)) && forall e <- others :: ByOthers(e, t)
    ensures t !in s.looping ==> After(s, CallAdd(t, obs, storage)) == s
    ensures t in s.looping ==>
      var s' := AfterAll(After(s, CallAdd(t, obs, storage)), others); var end := After(s', AddToList(t));
      && Happens(s', AddToList(t)) && Stack(end, t) == Stack(s, t)
      && Visible(end, t) == if obs in Visible(s, t) then Visible(s, t) else Visible(s, t) + [obs]
  {
    if t in s.looping {
      AddBegins(s, t, obs, storage);
      var s1 := After(s, CallAdd(t, obs, storage));
      hide Inv, Exec, Happens, After, Contents;
      OthersRun(s1, others, t);
      AddEnds(AfterAll(s1, others), t, obs, Stack(s, t));
    }
  }

  /** In RemoveObserver: the list has been unmapped if the observer was the last on it. */
  ghost predicate InRemoval(s: State, t: ThreadId, c: Address, left: seq<Observer>, removed: bool, obs: Observer) {
    && c in s.heap && s.heap[c].owner == t && Distinct(s.heap[c].slots)
    && (if removed then Contents(s.heap[c].slots) else Without(Contents(s.heap[c].slots), obs)) == left
    && (Mapped(s, t, c) || (t !in s.lists && left == []))
  }

  lemma OnlyOne(slots: Slots<Observer>, obs: Observer)
    requires Some(obs) in slots && |slots| == 1
    ensures Without(Contents(slots), obs) == []
  {
    assert slots == [Some(obs)];
  }

  lemma RemoveBegins(s: State, t: ThreadId, obs: Observer)
    requires Inv(s) && Happens(s, CallRemove(t, obs)) && t in s.lists
    ensures var s' := After(s, CallRemove(t, obs)); var c := s.lists[t];
      && Inv(s') && Stack(s', t) == Stack(s, t) + [Removing(c, obs)]
      && InRemoval(s', t, c, Without(Visible(s, t), obs), false, obs)
  {
    ExecSafe(s, CallRemove(t, obs));
    InvAt(s, t);
    var slots := s.heap[s.lists[t]].slots;
    if Some(obs) in slots && |slots| == 1 {
      OnlyOne(slots, obs);
    }
    hide Inv, StackOk, Notifiable, Contents, Without, InClientCode;
  }

  lemma RemovalStep(s: State, t: ThreadId, c: Address, obs: Observer, below: seq<Frame>)
    requires Stack(s, t) == below + [Removing(c, obs)] && c in s.heap
    ensures var s', k := After(s, RemoveFromList(t)), s.heap[c];
      && Happens(s, RemoveFromList(t)) && s'.lists == s.lists && Stack(s', t) == below + [AfterRemove(c)]
      && s'.heap == s.heap[c := k.(slots := ObserverList.Removed(k.slots, k.depth > 0, obs))]
  {
    assert (below + [Removing(c, obs)])[..|below|] == below;
    hide ObserverList.Removed;
  }

  lemma RemoveGoesOn(s: State, t: ThreadId, c: Address, obs: Observer, below: seq<Frame>, left: seq<Observer>)
    requires Inv(s) && Stack(s, t) == below + [Removing(c, obs)] && InRemoval(s, t, c, left, false, obs)
    ensures var s' := After(s, RemoveFromList(t));
      && Happens(s, RemoveFromList(t)) && Inv(s') && Stack(s', t) == below + [AfterRemove(c)] && InRemoval(s', t, c, left, true, obs)
  {
    ExecSafe(s, RemoveFromList(t));
    assert Inv(After(s, RemoveFromList(t)));
    hide Inv, ObserverList.Removed, Contents, Without, Exec, Stack, Happens, Distinct, After, NoNulls, OnlyNulled;
    var k := s.heap[c];
    RemovalStep(s, t, c, obs, below);
    RemoveFromContents(k.slots, k.depth > 0, obs);
    RemoveKeepsShape(k.slots, k.depth > 0, obs);
  }

  lemma RemoveEnds(s: State, t: ThreadId, c: Address, obs: Observer, below: seq<Frame>, left: seq<Observer>)
    requires Inv(s) && Stack(s, t) == below + [AfterRemove(c)] && InRemoval(s, t, c, left, true, obs)
    ensures var s' := After(s, FinishRemove(t));
      && Happens(s, FinishRemove(t)) && Inv(s') && Stack(s', t) == below && Visible(s', t) == left
  {
    ExecSafe(s, FinishRemove(t));
    assert (below + [AfterRemove(c)])[..|below|] == below;
    TopContext(s, t, AfterRemove(c));
    ContextFacts(s.heap[c], Mapped(s, t, c), Stack(s, t), c);
    hide Inv, Without, ContextOk;
  }

  lemma StillInRemoval(s: State, s': State, t: ThreadId, c: Address, left: seq<Observer>, removed: bool, obs: Observer)
    requires InRemoval(s, t, c, left, removed, obs) && SameFor(s, s', t)
    ensures InRemoval(s', t, c, left, removed, obs)
  {
    hide Contents, Without, Distinct;
  }

  /** RemoveObserver as a whole, whatever other threads do in the middle of it: the observer, and only it, is off the list. */
  lemma RemoveObserverRemoves(s: State, t: ThreadId, obs: Observer, others: seq<Event>, more: seq<Event>)
    requires Inv(s) && Happens(s, CallRemove(t, obs))
    requires (forall e <- others :: ByOthers(e, t)) && (forall e <- more :: ByOthers(e, t))
    ensures var s1 := AfterAll(After(s, CallRemove(t, obs)), others);
      var s2 := AfterAll(After(s1, RemoveFromList(t)), more);
      var end := After(s2, FinishRemove(t));
      && (t in s.lists ==> Happens(s1, RemoveFromList(t)) && Happens(s2, FinishRemove(t)))
      && Stack(end, t) == Stack(s, t) && Visible(end, t) == Without(Visible(s, t), obs)
  {
    var begun := After(s, CallRemove(t, obs));
    var s1 := AfterAll(begun, others);
    var gone := After(s1, RemoveFromList(t));
    var s2 := AfterAll(gone, more);
    if t in s.lists {
      var c, left := s.lists[t], Without(Visible(s, t), obs);
      RemoveBegins(s, t, obs);
      hide Inv, Exec, Happens, After, AfterAll, InRemoval, Visible, Without, SameFor;
      StackSame(begun, others, t);
      StillInRemoval(begun, s1, t, c, left, false, obs);
      RemoveGoesOn(s1, t, c, obs, Stack(s, t), left);
      StackSame(gone, more, t);
      StillInRemoval(gone, s2, t, c, left, true, obs);
      RemoveEnds(s2, t, c, obs, Stack(s, t), left);
    } else {
      UnknownThread(s, t, obs);
      hide Inv, Exec, After, AfterAll, SameFor;
      StackSame(begun, others, t);
      NotInCall(s1, t, RemoveFromList(t));
      StackSame(s1, more, t);
      NotInCall(s2, t, FinishRemove(t));
      NeverMapped(s, begun, s1, s2, t);
    }
  }

  lemma StackSame(s: State, others: seq<Event>, t: ThreadId)
    requires Inv(s) && forall e <- others :: ByOthers(e, t)
    ensures var s' := AfterAll(s, others); Inv(s') && SameFor(s, s', t) && Stack(s', t) == Stack(s, t)
  {
    OthersRun(s, others, t);
  }

  lemma UnknownThread(s: State, t: ThreadId, obs: Observer)
    requires Inv(s) && Happens(s, CallRemove(t, obs)) && t !in s.lists
    ensures var s' := After(s, CallRemove(t, obs)); Inv(s') && SameFor(s, s', t) && InClientCode(Stack(s', t))
  {
    ExecSafe(s, CallRemove(t, obs));
  }

  lemma NotInCall(s: State, t: ThreadId, e: Event)
    requires InClientCode(Stack(s, t)) && (e == RemoveFromList(t) || e == FinishRemove(t))
    ensures After(s, e) == s
  {
    NothingHappens(s, e);
  }

  lemma NeverMapped(s: State, s1: State, s2: State, s3: State, t: ThreadId)
    requires SameFor(s, s1, t) && SameFor(s1, s2, t) && SameFor(s2, s3, t) && t !in s.lists
    ensures Visible(s3, t) == Visible(s, t) == [] && Stack(s3, t) == Stack(s, t)
  {
  }
}
