/**
 base/observer_list_threadsafe.h: one ObserverList per thread, shared through a
 map that a lock protects, and notified by tasks posted to the owning threads.

 The model is a state machine.  A step is what one thread does between two
 points where another thread may intervene: a critical section, or a stretch of
 code that touches only the thread's own list.  A thread's stack holds one frame
 per call in progress, so observers may call back into the list and may run
 nested message loops.  Freed memory may be handed out again by the allocator.
 */
module ObserverListThreadSafe {
  import opened Wrappers
  import opened ObserverList

  type ThreadId = nat
  type Observer = nat
  type Address = nat

  /** ObserverListContext; its task runner is that of the thread `owner`.  `born` numbers the allocations. */
  datatype Context = Context(owner: ThreadId, born: nat, slots: Slots<Observer>, depth: nat)

  /** A posted NotifyWrapper; `born` records which allocation the pointer meant. */
  datatype Task = Task(thread: ThreadId, context: Address, born: nat)

  datatype Frame =
    | Adding(context: Address, obs: Observer)     // AddObserver, lock released
    | Removing(context: Address, obs: Observer)   // RemoveObserver, lock released
    | AfterRemove(context: Address)               // RemoveObserver, about to test size() == 0
    | Entering(context: Address)                  // NotifyWrapper, first check passed
    | Iterating(context: Address, index: nat, maxIndex: Option<nat>, calling: Option<Observer>)
    | Leaving(context: Address)                   // NotifyWrapper, iterator destroyed
    | Unmapping(context: Address)                 // NotifyWrapper, found the list empty
    | Deleting(context: Address)                  // NotifyWrapper, about to delete

  datatype State = State(
    kind: NotificationType,
    heap: map<Address, Context>,
    births: nat,
    used: set<Address>,
    lists: map<ThreadId, Address>,
    stacks: map<ThreadId, seq<Frame>>,
    tasks: multiset<Task>,
    looping: set<ThreadId>,
    registered: set<(ThreadId, Observer)>)

  datatype Event =
    | CallAdd(thread: ThreadId, obs: Observer, storage: Address)
    | AddToList(thread: ThreadId)
    | CallRemove(thread: ThreadId, obs: Observer)
    | RemoveFromList(thread: ThreadId)
    | FinishRemove(thread: ThreadId)
    | Notify(thread: ThreadId)
    | RunTask(task: Task)
    | DropTask(task: Task)
    | BeginIteration(thread: ThreadId)
    | NextObserver(thread: ThreadId)
    | ObserverReturns(thread: ThreadId)
    | TestEmpty(thread: ThreadId)
    | Unmap(thread: ThreadId)
    | Delete(thread: ThreadId)
    | SetLoop(thread: ThreadId, on: bool)

  /** A step either yields a state or shows that memory was misused. */
  datatype Outcome = Next(state: State) | UseAfterFree | DoubleFree

  function Initial(kind: NotificationType): State {
    State(kind, map[], 0, {}, map[], map[], multiset{}, {}, {})
  }

  function Stack(s: State, t: ThreadId): seq<Frame> {
    if t in s.stacks then s.stacks[t] else []
  }

  predicate Mapped(s: State, t: ThreadId, c: Address) {
    t in s.lists && s.lists[t] == c
  }

  /** Client code runs on a thread at its top level and inside an observer's method. */
  predicate InClientCode(stack: seq<Frame>) {
    stack == [] || (stack[|stack| - 1].Iterating? && stack[|stack| - 1].calling.Some?)
  }

  function Push(s: State, t: ThreadId, f: Frame): State {
    s.(stacks := s.stacks[t := Stack(s, t) + [f]])
  }

  function Pop(s: State, t: ThreadId): State
    requires Stack(s, t) != []
  {
    var stack := Stack(s, t);
    s.(stacks := s.stacks[t := stack[..|stack| - 1]])
  }

  function Goto(s: State, t: ThreadId, f: Frame): State
    requires Stack(s, t) != []
  {
    var stack := Stack(s, t);
    s.(stacks := s.stacks[t := stack[..|stack| - 1] + [f]])
  }

  function Store(s: State, c: Address, k: Context): State {
    s.(heap := s.heap[c := k])
  }

  // ----- the steps -----

  /** AddObserver's critical section; without a message loop it returns at once. */
  function DoCallAdd(s: State, t: ThreadId, obs: Observer, storage: Address): Outcome {
    if t !in s.looping then Next(s)
    else if t in s.lists then Next(Push(s, t, Adding(s.lists[t], obs)))
    else if storage in s.heap then Next(s) // no allocator returns memory in use
    else
      var made := Store(s, storage, Context(t, s.births, [], 0)).(births := s.births + 1, used := s.used + {storage}, lists := s.lists[t := storage]);
      Next(Push(made, t, Adding(storage, obs)))
  }

  /** RemoveObserver's critical section. */
  function DoCallRemove(s: State, t: ThreadId, obs: Observer): Outcome {
    var asked := s.(registered := s.registered - {(t, obs)});
    if t !in s.lists then Next(asked)
    else if s.lists[t] !in s.heap then UseAfterFree
    else
      var c := s.lists[t];
      var k := s.heap[c];
      var last := Some(obs) in k.slots && |k.slots| == 1;
      Next(Push(if last then asked.(lists := s.lists - {t}) else asked, t, Removing(c, obs)))
  }

  function DoNotify(s: State): Outcome {
    if exists t :: t in s.lists && s.lists[t] !in s.heap then UseAfterFree
    else
      var posted := set t | t in s.lists :: var k := s.heap[s.lists[t]]; Task(k.owner, s.lists[t], k.born);
      Next(s.(tasks := s.tasks + multiset(posted)))
  }

  /** The start of NotifyWrapper: compare the pointer with the map, without following it. */
  function DoRunTask(s: State, task: Task): Outcome {
    var taken := s.(tasks := s.tasks - multiset{task});
    if Mapped(s, task.thread, task.context) then Next(Push(taken, task.thread, Entering(task.context))) else Next(taken)
  }

  function DoAddToList(s: State, t: ThreadId, c: Address, obs: Observer): Outcome
    requires Stack(s, t) != []
  {
    if c !in s.heap then UseAfterFree
    else
      var k := s.heap[c];
      Next(Pop(Store(s, c, k.(slots := Added(k.slots, obs))).(registered := s.registered + {(t, obs)}), t))
  }

  function DoRemoveFromList(s: State, t: ThreadId, c: Address, obs: Observer): Outcome
    requires Stack(s, t) != []
  {
    if c !in s.heap then UseAfterFree
    else
      var k := s.heap[c];
      Next(Goto(Store(s, c, k.(slots := ObserverList.Removed(k.slots, k.depth > 0, obs))), t, AfterRemove(c)))
  }

  function DoFinishRemove(s: State, t: ThreadId, c: Address): Outcome
    requires Stack(s, t) != []
  {
    if c !in s.heap then UseAfterFree
    else if |s.heap[c].slots| == 0 then Next(Pop(s.(heap := s.heap - {c}), t))
    else Next(Pop(s, t))
  }

  function DoBeginIteration(s: State, t: ThreadId, c: Address): Outcome
    requires Stack(s, t) != []
  {
    if c !in s.heap then UseAfterFree
    else
      var k := s.heap[c];
      var maxIndex := if s.kind == NotifyAll then None else Some(|k.slots|);
      Next(Goto(Store(s, c, k.(depth := k.depth + 1)), t, Iterating(c, 0, maxIndex, None)))
  }

  function DoNextObserver(s: State, t: ThreadId, f: Frame): Outcome
    requires f.Iterating? && Stack(s, t) != []
  {
    if f.context !in s.heap then UseAfterFree
    else
      var k := s.heap[f.context];
      var limit := CursorLimit(f.maxIndex, |k.slots|);
      var stop := SkipNulls(k.slots, f.index, limit);
      if stop < limit then Next(Goto(s, t, f.(index := stop + 1, calling := k.slots[stop])))
      else
        // GetNext returned null, so the loop ends and the iterator is destroyed.
        var depth := if k.depth == 0 then 0 else k.depth - 1;
        var k' := k.(depth := depth, slots := if depth == 0 then Compacted(k.slots) else k.slots);
        Next(Goto(Store(s, f.context, k'), t, Leaving(f.context)))
  }

  function DoTestEmpty(s: State, t: ThreadId, c: Address): Outcome
    requires Stack(s, t) != []
  {
    if c !in s.heap then UseAfterFree
    else if |s.heap[c].slots| == 0 then Next(Goto(s, t, Unmapping(c)))
    else Next(Pop(s, t))
  }

  function DoUnmap(s: State, t: ThreadId, c: Address): Outcome
    requires Stack(s, t) != []
  {
    Next(Goto(if Mapped(s, t, c) then s.(lists := s.lists - {t}) else s, t, Deleting(c)))
  }

  function DoDelete(s: State, t: ThreadId, c: Address): Outcome
    requires Stack(s, t) != []
  {
    if c !in s.heap then DoubleFree else Next(Pop(s.(heap := s.heap - {c}), t))
  }

  /** The rest of the call whose frame is on top. */
  function DoTop(s: State, t: ThreadId, e: Event, f: Frame): Outcome
    requires Stack(s, t) != []
  {
    match (e, f)
    case (AddToList(_), Adding(c, obs)) => DoAddToList(s, t, c, obs)
    case (RemoveFromList(_), Removing(c, obs)) => DoRemoveFromList(s, t, c, obs)
    case (FinishRemove(_), AfterRemove(c)) => DoFinishRemove(s, t, c)
    case (BeginIteration(_), Entering(c)) => DoBeginIteration(s, t, c)
    case (NextObserver(_), Iterating(_, _, _, None)) => DoNextObserver(s, t, f)
    case (ObserverReturns(_), Iterating(_, _, _, Some(_))) => Next(Goto(s, t, f.(calling := None)))
    case (TestEmpty(_), Leaving(c)) => DoTestEmpty(s, t, c)
    case (Unmap(_), Unmapping(c)) => DoUnmap(s, t, c)
    case (Delete(_), Deleting(c)) => DoDelete(s, t, c)
    case _ => Next(s)
  }

  function Actor(e: Event): ThreadId {
    match e
    case RunTask(task) => task.thread
    case DropTask(task) => task.thread
    case _ => e.thread
  }

  /** Events that cannot happen in a state leave it as it is. */
  function Exec(s: State, e: Event): Outcome {
    var t := Actor(e);
    var stack := Stack(s, t);
    match e
    case CallAdd(_, obs, storage) => if InClientCode(stack) then DoCallAdd(s, t, obs, storage) else Next(s)
    case CallRemove(_, obs) => if InClientCode(stack) then DoCallRemove(s, t, obs) else Next(s)
    case Notify(_) => if InClientCode(stack) then DoNotify(s) else Next(s)
    case RunTask(task) => if InClientCode(stack) && task in s.tasks then DoRunTask(s, task) else Next(s)
    case DropTask(task) => Next(s.(tasks := s.tasks - multiset{task}))
    case SetLoop(_, on) => Next(s.(looping := if on then s.looping + {t} else s.looping - {t}))
    case _ => if stack == [] then Next(s) else DoTop(s, t, e, stack[|stack| - 1])
  }

  function Run(s: State, events: seq<Event>): Outcome
    decreases |events|
  {
    if events == [] then Next(s)
    else match Exec(s, events[0])
      case Next(s') => Run(s', events[1..])
      case fault => fault
  }

  // ----- the invariant -----

  /** How many iterators a thread has on one context: what notify_depth_ should be. */
  function Depth(stack: seq<Frame>, c: Address): nat {
    if stack == [] then 0
    else
      var f := stack[|stack| - 1];
      Depth(stack[..|stack| - 1], c) + if f.Iterating? && f.context == c then 1 else 0
  }

  /** The unfinished operation on c, if the thread is in the middle of one. */
  function Unfinished(stack: seq<Frame>, c: Address): Option<Frame> {
    if stack == [] then None
    else
      var f := stack[|stack| - 1];
      if f.context == c && !f.Iterating? then Some(f) else None
  }

  ghost predicate AllNull(slots: Slots<Observer>) {
    forall p :: 0 <= p < |slots| ==> slots[p].None?
  }

  /** What holds of a live context at each point of the calls that use it. */
  ghost predicate Shape(k: Context, mapped: bool, now: Option<Frame>) {
    match now
    case Some(Adding(_, _)) => mapped && (k.depth > 0 ==> k.slots != [])
    case Some(Removing(_, obs)) =>
      && k.slots != []
      && (mapped ==> Some(obs) !in k.slots || |k.slots| > 1)
      && (!mapped ==> k.slots == [Some(obs)])
    case Some(AfterRemove(_)) => (k.slots == [] <==> !mapped && k.depth == 0) && (!mapped ==> AllNull(k.slots))
    case Some(Entering(_)) => mapped && k.slots != []
    case Some(Leaving(_)) => (!mapped ==> AllNull(k.slots)) && (k.depth > 0 ==> k.slots != [])
    case Some(Unmapping(_)) => k.depth == 0 && k.slots == []
    case Some(Deleting(_)) => k.depth == 0 && k.slots == [] && !mapped
    case _ => k.slots != [] && (mapped || (k.depth > 0 && AllNull(k.slots)))
  }

  ghost predicate ContextOk(k: Context, mapped: bool, stack: seq<Frame>, c: Address) {
    && Distinct(k.slots)
    && (k.depth == 0 ==> NoNulls(k.slots))
    && k.depth == Depth(stack, c)
    && Shape(k, mapped, Unfinished(stack, c))
  }

  ghost predicate StackOk(heap: map<Address, Context>, t: ThreadId, stack: seq<Frame>) {
    && (forall i :: 0 <= i < |stack| ==> stack[i].context in heap && heap[stack[i].context].owner == t)
    && (forall i :: 0 <= i < |stack| - 1 ==> stack[i].Iterating? && stack[i].calling.Some?)
  }

  /** The observers a thread's list will notify, apart from the one being removed. */
  ghost predicate Notifiable(s: State, t: ThreadId, obs: Observer) {
    && t in s.lists && s.lists[t] in s.heap
    && Some(obs) in s.heap[s.lists[t]].slots
    && Unfinished(Stack(s, t), s.lists[t]) != Some(Removing(s.lists[t], obs))
  }

  ghost predicate Inv(s: State) {
    && (forall t :: t in s.lists ==> s.lists[t] in s.heap && s.heap[s.lists[t]].owner == t)
    && (forall t: ThreadId :: StackOk(s.heap, t, Stack(s, t)))
    && (forall c :: c in s.heap ==> ContextOk(s.heap[c], Mapped(s, s.heap[c].owner, c), Stack(s, s.heap[c].owner), c))
    && (forall t: ThreadId, obs: Observer :: (t, obs) in s.registered <==> Notifiable(s, t, obs))
  }

  // ----- a step by one thread on one context disturbs nothing else -----

  ghost predicate OnlyTouches(s: State, s': State, t: ThreadId, c: Address) {
    && (forall a :: a != c ==> (a in s.heap <==> a in s'.heap) && (a in s.heap ==> s'.heap[a] == s.heap[a]))
    && (c in s.heap ==> s.heap[c].owner == t)
    && (c in s'.heap ==> s'.heap[c].owner == t)
    && (forall u: ThreadId :: u != t ==> Stack(s', u) == Stack(s, u))
    && (forall u, a :: (u != t || a != c) ==> (Mapped(s', u, a) <==> Mapped(s, u, a)))
    && (forall u: ThreadId, obs: Observer :: u != t ==> ((u, obs) in s'.registered <==> (u, obs) in s.registered))
  }

  ghost predicate SameElsewhere(stack: seq<Frame>, stack': seq<Frame>, c: Address) {
    forall a :: a != c ==> Depth(stack', a) == Depth(stack, a) && Unfinished(stack', a) == Unfinished(stack, a)
  }

  lemma LocalStep(s: State, s': State, t: ThreadId, c: Address)
    requires Inv(s) && OnlyTouches(s, s', t, c)
    requires SameElsewhere(Stack(s, t), Stack(s', t), c)
    requires StackOk(s'.heap, t, Stack(s', t))
    requires Mapped(s', t, c) ==> c in s'.heap
    requires c in s'.heap ==> ContextOk(s'.heap[c], Mapped(s', t, c), Stack(s', t), c)
    requires forall obs: Observer :: (t, obs) in s'.registered <==> Notifiable(s', t, obs)
    ensures Inv(s')
  {
    forall u | u in s'.lists
      ensures s'.lists[u] in s'.heap && s'.heap[s'.lists[u]].owner == u
    {
      assert Mapped(s', u, s'.lists[u]);
      if u != t || s'.lists[u] != c {
        assert Mapped(s, u, s'.lists[u]);
      }
    }
    forall u: ThreadId
      ensures StackOk(s'.heap, u, Stack(s', u))
    {
      assert StackOk(s.heap, u, Stack(s, u));
    }
    forall a | a in s'.heap
      ensures ContextOk(s'.heap[a], Mapped(s', s'.heap[a].owner, a), Stack(s', s'.heap[a].owner), a)
    {
      if a != c {
        assert ContextOk(s.heap[a], Mapped(s, s.heap[a].owner, a), Stack(s, s.heap[a].owner), a);
      }
    }
    forall u: ThreadId, obs: Observer | u != t
      ensures (u, obs) in s'.registered <==> Notifiable(s', u, obs)
    {
      NotifiableElsewhere(s, s', t, c, u, obs);
    }
  }

  lemma NotifiableElsewhere(s: State, s': State, t: ThreadId, c: Address, u: ThreadId, obs: Observer)
    requires Inv(s) && OnlyTouches(s, s', t, c) && u != t
    ensures Notifiable(s', u, obs) <==> Notifiable(s, u, obs)
  {
    if u in s.lists {
      assert Mapped(s, u, s.lists[u]);
      assert Mapped(s', u, s.lists[u]);
    }
    if u in s'.lists {
      assert Mapped(s', u, s'.lists[u]);
      assert Mapped(s, u, s'.lists[u]);
    }
  }

  lemma PushStack(stack: seq<Frame>, f: Frame)
    requires InClientCode(stack)
    ensures SameElsewhere(stack, stack + [f], f.context)
    ensures Depth(stack + [f], f.context) == Depth(stack, f.context) + if f.Iterating? then 1 else 0
    ensures Unfinished(stack, f.context) == None
    ensures Unfinished(stack + [f], f.context) == if f.Iterating? then None else Some(f)
  {
    assert (stack + [f])[..|stack|] == stack;
  }

  lemma PushOk(heap: map<Address, Context>, t: ThreadId, stack: seq<Frame>, f: Frame)
    requires StackOk(heap, t, stack) && InClientCode(stack)
    requires f.context in heap && heap[f.context].owner == t
    ensures StackOk(heap, t, stack + [f])
  {
  }

  lemma PopOk(heap: map<Address, Context>, t: ThreadId, stack: seq<Frame>, f: Frame)
    requires StackOk(heap, t, stack + [f])
    ensures StackOk(heap, t, stack) && InClientCode(stack)
    ensures f.context in heap && heap[f.context].owner == t
  {
    assert (stack + [f])[|stack|] == f;
    forall i | 0 <= i < |stack|
      ensures stack[i].Iterating? && stack[i].calling.Some? && stack[i].context in heap && heap[stack[i].context].owner == t
    {
      assert stack[i] == (stack + [f])[i];
    }
  }

  lemma SameElsewhereTransitive(a: seq<Frame>, b: seq<Frame>, d: seq<Frame>, c: Address)
    requires SameElsewhere(b, a, c) || SameElsewhere(a, b, c)
    requires SameElsewhere(b, d, c)
    ensures SameElsewhere(a, d, c)
  {
    hide Depth, Unfinished;
  }

  /** The top frame's call goes on (`rest` is one frame) or returns (`rest` is empty). */
  lemma TopMoves(heap: map<Address, Context>, t: ThreadId, stack: seq<Frame>, rest: seq<Frame>) returns (f: Frame, below: seq<Frame>)
    requires StackOk(heap, t, stack) && stack != []
    requires |rest| <= 1 && (rest != [] ==> rest[0].context == stack[|stack| - 1].context)
    ensures stack == below + [f] && f == stack[|stack| - 1] && below == stack[..|stack| - 1]
    ensures f.context in heap && heap[f.context].owner == t
    ensures InClientCode(below)
    ensures StackOk(heap, t, below + rest)
    ensures SameElsewhere(stack, below + rest, f.context)
    ensures Depth(stack, f.context) == Depth(below, f.context) + if f.Iterating? then 1 else 0
    ensures Unfinished(stack, f.context) == if f.Iterating? then None else Some(f)
    ensures Depth(below + rest, f.context) == Depth(below, f.context) + if rest != [] && rest[0].Iterating? then 1 else 0
    ensures Unfinished(below + rest, f.context) == if rest == [] || rest[0].Iterating? then None else Some(rest[0])
  {
    hide Depth, Unfinished, StackOk, SameElsewhere;
    f, below := stack[|stack| - 1], stack[..|stack| - 1];
    assert stack == below + [f];
    PopOk(heap, t, below, f);
    PushStack(below, f);
    if rest == [] {
      assert below + rest == below;
      SameElsewhereTransitive(stack, below, below, f.context) by { SameElsewhereReflexive(below, f.context); }
    } else {
      assert below + rest == below + [rest[0]];
      PushStack(below, rest[0]);
      PushOk(heap, t, below, rest[0]);
      SameElsewhereTransitive(stack, below, below + rest, f.context);
    }
  }

  lemma SameElsewhereReflexive(a: seq<Frame>, c: Address)
    ensures SameElsewhere(a, a, c)
  {
  }

  // ----- every step keeps the invariant and never misuses memory -----

  /** A thread has no frames on memory that is not in use. */
  lemma {:induction false} NoFrames(heap: map<Address, Context>, t: ThreadId, stack: seq<Frame>, c: Address)
    requires StackOk(heap, t, stack) && c !in heap
    ensures Depth(stack, c) == 0
    decreases |stack|
  {
    if stack != [] {
      var below := stack[..|stack| - 1];
      assert stack[|stack| - 1].context in heap;
      assert forall i :: 0 <= i < |below| ==> below[i] == stack[i];
      NoFrames(heap, t, below, c);
    }
  }

  /** What the invariant says of one thread. */
  lemma InvAt(s: State, t: ThreadId)
    requires Inv(s)
    ensures StackOk(s.heap, t, Stack(s, t))
    ensures forall obs: Observer :: (t, obs) in s.registered <==> Notifiable(s, t, obs)
    ensures t in s.lists ==>
      && s.lists[t] in s.heap && s.heap[s.lists[t]].owner == t
      && ContextOk(s.heap[s.lists[t]], true, Stack(s, t), s.lists[t])
  {
    if t in s.lists {
      assert ContextOk(s.heap[s.lists[t]], Mapped(s, t, s.lists[t]), Stack(s, t), s.lists[t]);
    }
  }

  lemma RemoveTouches(s: State, t: ThreadId, obs: Observer)
    requires t in s.lists && s.lists[t] in s.heap && s.heap[s.lists[t]].owner == t
    ensures OnlyTouches(s, DoCallRemove(s, t, obs).state, t, s.lists[t])
  {
  }

  lemma CallRemoveSafe(s: State, t: ThreadId, obs: Observer)
    requires Inv(s) && InClientCode(Stack(s, t))
    ensures DoCallRemove(s, t, obs).Next? && Inv(DoCallRemove(s, t, obs).state)
  {
    hide Depth, Unfinished, StackOk, SameElsewhere, Inv, OnlyTouches;
    InvAt(s, t);
    var s' := DoCallRemove(s, t, obs).state;
    if t in s.lists {
      var c := s.lists[t];
      RemoveTouches(s, t, obs);
      PushStack(Stack(s, t), Removing(c, obs));
      PushOk(s.heap, t, Stack(s, t), Removing(c, obs));
      LocalStep(s, s', t, c);
    } else {
      assert !Notifiable(s, t, obs);
      assert s'.registered == s.registered;
    }
  }

  lemma AddTouches(s: State, t: ThreadId, obs: Observer, storage: Address)
    requires t in s.looping && (t in s.lists || storage !in s.heap)
    requires t in s.lists ==> s.lists[t] in s.heap && s.heap[s.lists[t]].owner == t
    ensures OnlyTouches(s, DoCallAdd(s, t, obs, storage).state, t, if t in s.lists then s.lists[t] else storage)
  {
  }

  lemma CallAddSafe(s: State, t: ThreadId, obs: Observer, storage: Address)
    requires Inv(s) && InClientCode(Stack(s, t))
    ensures DoCallAdd(s, t, obs, storage).Next? && Inv(DoCallAdd(s, t, obs, storage).state)
  {
    hide Depth, Unfinished, StackOk, SameElsewhere;
    var s' := DoCallAdd(s, t, obs, storage).state;
    if t in s.looping && (t in s.lists || storage !in s.heap) {
      var c := if t in s.lists then s.lists[t] else storage;
      InvAt(s, t);
      AddTouches(s, t, obs, storage);
      hide Inv, OnlyTouches;
      PushStack(Stack(s, t), Adding(c, obs));
      GrowOk(s.heap, s'.heap, t, Stack(s, t));
      PushOk(s'.heap, t, Stack(s, t), Adding(c, obs));
      if t !in s.lists {
        NoFrames(s.heap, t, Stack(s, t), c);
      }
      LocalStep(s, s', t, c);
    }
  }

  lemma GrowOk(heap: map<Address, Context>, heap': map<Address, Context>, t: ThreadId, stack: seq<Frame>)
    requires StackOk(heap, t, stack)
    requires forall c :: c in heap ==> c in heap' && heap'[c].owner == heap[c].owner
    ensures StackOk(heap', t, stack)
  {
  }

  /** When no iterator is left on c, no frame is. */
  lemma {:induction false} ShrinkOk(heap: map<Address, Context>, t: ThreadId, stack: seq<Frame>, c: Address)
    requires StackOk(heap, t, stack) && InClientCode(stack) && Depth(stack, c) == 0
    ensures StackOk(heap - {c}, t, stack)
    decreases |stack|
  {
    if stack != [] {
      var below := stack[..|stack| - 1];
      assert stack == below + [stack[|stack| - 1]];
      PopOk(heap, t, below, stack[|stack| - 1]);
      ShrinkOk(heap, t, below, c);
      forall i | 0 <= i < |stack|
        ensures stack[i].context in heap - {c}
      {
        assert i < |below| ==> stack[i] == below[i];
      }
    }
  }

  /**
   The step of a call in progress: the top frame is replaced by `rest`, its context
   becomes `after` or is freed, and the thread's map entry may be erased.
   */
  function TopStep(s: State, t: ThreadId, rest: seq<Frame>, after: Option<Context>, unmap: bool, added: set<Observer>): State
    requires Stack(s, t) != []
  {
    var stack := Stack(s, t);
    var c := stack[|stack| - 1].context;
    s.(heap := if after.Some? then s.heap[c := after.value] else s.heap - {c},
       lists := if unmap then s.lists - {t} else s.lists,
       stacks := s.stacks[t := stack[..|stack| - 1] + rest],
       registered := s.registered + (set obs | obs in added :: (t, obs)))
  }

  function Iterators(frames: seq<Frame>): nat {
    if frames != [] && frames[0].Iterating? then 1 else 0
  }

  lemma TopContext(s: State, t: ThreadId, f: Frame)
    requires Inv(s) && Stack(s, t) != [] && f == Stack(s, t)[|Stack(s, t)| - 1]
    ensures f.context in s.heap && s.heap[f.context].owner == t
    ensures ContextOk(s.heap[f.context], Mapped(s, t, f.context), Stack(s, t), f.context)
    ensures Unfinished(Stack(s, t), f.context) == if f.Iterating? then None else Some(f)
    ensures s.heap[f.context].depth >= Iterators([f])
  {
    assert StackOk(s.heap, t, Stack(s, t));
  }

  lemma TopStepSafe(s: State, t: ThreadId, f: Frame, rest: seq<Frame>, after: Option<Context>, unmap: bool, added: set<Observer>)
    requires Inv(s) && Stack(s, t) != [] && f == Stack(s, t)[|Stack(s, t)| - 1]
    requires |rest| <= 1 && (rest != [] ==> rest[0].context == f.context)
    requires f.context in s.heap && s.heap[f.context].owner == t
    requires unmap ==> Mapped(s, t, f.context)
    requires after.Some? ==>
      && after.value.owner == t
      && Distinct(after.value.slots)
      && (after.value.depth == 0 ==> NoNulls(after.value.slots))
      && after.value.depth + Iterators([f]) == s.heap[f.context].depth + Iterators(rest)
      && Shape(after.value, Mapped(s, t, f.context) && !unmap, if rest == [] || rest[0].Iterating? then None else Some(rest[0]))
    requires after.None? ==> rest == [] && !Mapped(s, t, f.context) && s.heap[f.context].depth == 0 && !f.Iterating?
    requires added != {} ==> Mapped(s, t, f.context) && !unmap
    requires Mapped(s, t, f.context) && unmap ==> forall obs: Observer :: !Notifiable(s, t, obs)
    requires Mapped(s, t, f.context) && !unmap ==>
      && after.Some? && (rest == [] || !rest[0].Removing?)
      && forall obs: Observer :: (Notifiable(s, t, obs) || obs in added <==> Some(obs) in after.value.slots)
    ensures Inv(TopStep(s, t, rest, after, unmap, added))
  {
    hide Depth, Unfinished, StackOk, SameElsewhere, Shape, Distinct, NoNulls;
    var s' := TopStep(s, t, rest, after, unmap, added);
    TopContext(s, t, f);
    assert StackOk(s.heap, t, Stack(s, t));
    var f', below := TopMoves(s.heap, t, Stack(s, t), rest);
    if after.Some? {
      GrowOk(s.heap, s'.heap, t, below + rest);
    } else {
      assert below + rest == below;
      ShrinkOk(s.heap, t, below, f.context);
    }
    TopTouches(s, t, f, rest, after, unmap, added);
    TopRegistered(s, t, f, rest, after, unmap, added);
    hide Inv, OnlyTouches, Notifiable;
    LocalStep(s, s', t, f.context);
  }

  lemma TopTouches(s: State, t: ThreadId, f: Frame, rest: seq<Frame>, after: Option<Context>, unmap: bool, added: set<Observer>)
    requires Stack(s, t) != [] && f == Stack(s, t)[|Stack(s, t)| - 1]
    requires f.context in s.heap && s.heap[f.context].owner == t
    requires unmap ==> Mapped(s, t, f.context)
    requires after.Some? ==> after.value.owner == t
    ensures OnlyTouches(s, TopStep(s, t, rest, after, unmap, added), t, f.context)
  {
  }

  lemma TopRegistered(s: State, t: ThreadId, f: Frame, rest: seq<Frame>, after: Option<Context>, unmap: bool, added: set<Observer>)
    requires Inv(s) && Stack(s, t) != [] && f == Stack(s, t)[|Stack(s, t)| - 1]
    requires |rest| <= 1 && (rest != [] ==> rest[0].context == f.context)
    requires unmap ==> Mapped(s, t, f.context)
    requires added != {} ==> Mapped(s, t, f.context) && !unmap
    requires Mapped(s, t, f.context) && unmap ==> forall obs: Observer :: !Notifiable(s, t, obs)
    requires Mapped(s, t, f.context) && !unmap ==>
      && after.Some? && (rest == [] || !rest[0].Removing?)
      && forall obs: Observer :: (Notifiable(s, t, obs) || obs in added <==> Some(obs) in after.value.slots)
    ensures forall obs: Observer ::
      ((t, obs) in TopStep(s, t, rest, after, unmap, added).registered <==> Notifiable(TopStep(s, t, rest, after, unmap, added), t, obs))
  {
    hide Depth, StackOk, SameElsewhere, ContextOk, Unfinished, Inv;
    var s' := TopStep(s, t, rest, after, unmap, added);
    InvAt(s, t);
    var f', below := TopMoves(s.heap, t, Stack(s, t), rest);
    forall obs: Observer
      ensures (t, obs) in s'.registered <==> Notifiable(s', t, obs)
    {
      assert (t, obs) in s.registered <==> Notifiable(s, t, obs);
      if t in s.lists && s.lists[t] != f.context {
        ElsewhereAt(Stack(s, t), below + rest, f.context, s.lists[t]);
      }
    }
  }

  lemma ElsewhereAt(stack: seq<Frame>, stack': seq<Frame>, c: Address, a: Address)
    requires SameElsewhere(stack, stack', c) && a != c
    ensures Depth(stack', a) == Depth(stack, a) && Unfinished(stack', a) == Unfinished(stack, a)
  {
  }

  // One lemma for each thing the frame on top may do next.

  lemma AddToListSafe(s: State, t: ThreadId, f: Frame)
    requires Inv(s) && Stack(s, t) != [] && f == Stack(s, t)[|Stack(s, t)| - 1] && f.Adding?
    ensures DoTop(s, t, AddToList(t), f).Next? && Inv(DoTop(s, t, AddToList(t), f).state)
  {
    hide ContextOk, Inv, DoTop, TopStep;
    TopContext(s, t, f);
    var k := s.heap[f.context];
    ContextFacts(k, Mapped(s, t, f.context), Stack(s, t), f.context);
    AddKeepsOrder(k.slots, f.obs);
    AddToListIs(s, t, f);
    var after := k.(slots := Added(k.slots, f.obs));
    TopStepSafe(s, t, f, [], Some(after), false, {f.obs});
  }

  lemma AddToListIs(s: State, t: ThreadId, f: Frame)
    requires Stack(s, t) != [] && f == Stack(s, t)[|Stack(s, t)| - 1] && f.Adding? && f.context in s.heap
    ensures var k := s.heap[f.context];
      DoTop(s, t, AddToList(t), f) == Next(TopStep(s, t, [], Some(k.(slots := Added(k.slots, f.obs))), false, {f.obs}))
  {
    hide Added;
    NoneAdded(s, t);
    assert (set obs | obs in {f.obs} :: (t, obs)) == {(t, f.obs)};
  }

  lemma ContextFacts(k: Context, mapped: bool, stack: seq<Frame>, c: Address)
    requires ContextOk(k, mapped, stack, c)
    ensures Distinct(k.slots) && (k.depth == 0 ==> NoNulls(k.slots)) && Shape(k, mapped, Unfinished(stack, c))
  {
  }

  lemma SameContext(s: State, t: ThreadId, f: Frame, rest: seq<Frame>)
    requires Stack(s, t) != [] && f == Stack(s, t)[|Stack(s, t)| - 1] && f.context in s.heap
    ensures TopStep(s, t, rest, Some(s.heap[f.context]), false, {})
         == s.(stacks := s.stacks[t := Stack(s, t)[..|Stack(s, t)| - 1] + rest])
  {
    assert s.heap[f.context := s.heap[f.context]] == s.heap;
    NoneAdded(s, t);
  }

  lemma NoneAdded(s: State, t: ThreadId)
    ensures s.registered + (set obs | obs in {} :: (t, obs)) == s.registered
    ensures Stack(s, t) != [] ==> Stack(s, t)[..|Stack(s, t)| - 1] + [] == Stack(s, t)[..|Stack(s, t)| - 1]
  {
  }

  lemma RemovedShape(k: Context, mapped: bool, c: Address, obs: Observer)
    requires Distinct(k.slots) && (k.depth == 0 ==> NoNulls(k.slots)) && Shape(k, mapped, Some(Removing(c, obs)))
    ensures var after := k.(slots := ObserverList.Removed(k.slots, k.depth > 0, obs));
      && Distinct(after.slots) && (after.depth == 0 ==> NoNulls(after.slots)) && Shape(after, mapped, Some(AfterRemove(c)))
      && forall other: Observer :: Some(other) in after.slots <==> Some(other) in k.slots && other != obs
  {
    RemoveKeepsShape(k.slots, k.depth > 0, obs);
    RemoveMembers(k.slots, k.depth > 0, obs);
  }

  lemma RemoveFromListSafe(s: State, t: ThreadId, f: Frame)
    requires Inv(s) && Stack(s, t) != [] && f == Stack(s, t)[|Stack(s, t)| - 1] && f.Removing?
    ensures DoTop(s, t, RemoveFromList(t), f).Next? && Inv(DoTop(s, t, RemoveFromList(t), f).state)
  {
    hide ContextOk, Inv;
    TopContext(s, t, f);
    var k := s.heap[f.context];
    ContextFacts(k, Mapped(s, t, f.context), Stack(s, t), f.context);
    RemovedShape(k, Mapped(s, t, f.context), f.context, f.obs);
    hide ObserverList.Removed, Shape, Distinct, NoNulls;
    var after := k.(slots := ObserverList.Removed(k.slots, k.depth > 0, f.obs));
    TopStepSafe(s, t, f, [AfterRemove(f.context)], Some(after), false, {});
    assert DoTop(s, t, RemoveFromList(t), f) == Next(TopStep(s, t, [AfterRemove(f.context)], Some(after), false, {}));
  }

  lemma FinishRemoveSafe(s: State, t: ThreadId, f: Frame)
    requires Inv(s) && Stack(s, t) != [] && f == Stack(s, t)[|Stack(s, t)| - 1] && f.AfterRemove?
    ensures DoTop(s, t, FinishRemove(t), f).Next? && Inv(DoTop(s, t, FinishRemove(t), f).state)
  {
    hide ContextOk, Inv;
    TopContext(s, t, f);
    var k := s.heap[f.context];
    ContextFacts(k, Mapped(s, t, f.context), Stack(s, t), f.context);
    var after := if k.slots == [] then None else Some(k);
    TopStepSafe(s, t, f, [], after, false, {});
    SameContext(s, t, f, []);
    NoneAdded(s, t);
    assert DoTop(s, t, FinishRemove(t), f) == Next(TopStep(s, t, [], after, false, {}));
  }

  lemma BeginIterationSafe(s: State, t: ThreadId, f: Frame)
    requires Inv(s) && Stack(s, t) != [] && f == Stack(s, t)[|Stack(s, t)| - 1] && f.Entering?
    ensures DoTop(s, t, BeginIteration(t), f).Next? && Inv(DoTop(s, t, BeginIteration(t), f).state)
  {
    hide ContextOk, Inv;
    TopContext(s, t, f);
    var k := s.heap[f.context];
    ContextFacts(k, Mapped(s, t, f.context), Stack(s, t), f.context);
    var after := k.(depth := k.depth + 1);
    var rest := [Iterating(f.context, 0, if s.kind == NotifyAll then None else Some(|k.slots|), None)];
    TopStepSafe(s, t, f, rest, Some(after), false, {});
    assert DoTop(s, t, BeginIteration(t), f) == Next(TopStep(s, t, rest, Some(after), false, {}));
  }

  /** What one GetNext of the notification loop does to the frame and to the context. */
  function AfterGetNext(k: Context, f: Frame): (Frame, Context)
    requires f.Iterating?
  {
    var limit := CursorLimit(f.maxIndex, |k.slots|);
    var stop := SkipNulls(k.slots, f.index, limit);
    if stop < limit then (f.(index := stop + 1, calling := k.slots[stop]), k)
    else
      var depth := if k.depth == 0 then 0 else k.depth - 1;
      (Leaving(f.context), k.(depth := depth, slots := if depth == 0 then Compacted(k.slots) else k.slots))
  }

  lemma NextObserverEffect(s: State, t: ThreadId, f: Frame)
    requires Stack(s, t) != [] && f == Stack(s, t)[|Stack(s, t)| - 1] && f.Iterating? && f.context in s.heap
    ensures var (f', k') := AfterGetNext(s.heap[f.context], f);
      DoNextObserver(s, t, f) == Next(TopStep(s, t, [f'], Some(k'), false, {}))
  {
    var k := s.heap[f.context];
    assert s.heap[f.context := k] == s.heap;
    NoneAdded(s, t);
  }

  lemma GetNextShape(k: Context, mapped: bool, f: Frame)
    requires f.Iterating? && k.depth > 0 && Distinct(k.slots) && Shape(k, mapped, None)
    ensures var (f', k') := AfterGetNext(k, f);
      && f'.context == f.context && (f'.Iterating? || f'.Leaving?)
      && k'.owner == k.owner && Distinct(k'.slots) && (k'.depth == 0 ==> NoNulls(k'.slots))
      && k'.depth + 1 == k.depth + Iterators([f'])
      && Shape(k', mapped, if f'.Iterating? then None else Some(f'))
      && (forall obs: Observer :: Some(obs) in k'.slots <==> Some(obs) in k.slots)
  {
    CompactKeepsContents(k.slots);
    CompactKeepsDistinct(k.slots);
    CompactMembers(k.slots);
    hide Distinct, NoNulls, Compacted, Contents, SkipNulls, CursorLimit;
    if AfterGetNext(k, f).0.Leaving? && k.depth == 1 && !mapped {
      assert Compacted(k.slots) == [];
    }
  }

  lemma NextObserverSafe(s: State, t: ThreadId, f: Frame)
    requires Inv(s) && Stack(s, t) != [] && f == Stack(s, t)[|Stack(s, t)| - 1] && f.Iterating?
    ensures DoNextObserver(s, t, f).Next? && Inv(DoNextObserver(s, t, f).state)
  {
    hide ContextOk, Inv, TopStep, Distinct, NoNulls, AfterGetNext;
    TopContext(s, t, f);
    var k := s.heap[f.context];
    ContextFacts(k, Mapped(s, t, f.context), Stack(s, t), f.context);
    assert Unfinished(Stack(s, t), f.context) == None;
    assert k.depth > 0;
    GetNextShape(k, Mapped(s, t, f.context), f);
    NextObserverEffect(s, t, f);
    var (f', k') := AfterGetNext(k, f);
    hide Shape, DoNextObserver;
    TopStepSafe(s, t, f, [f'], Some(k'), false, {});
  }

  lemma ObserverReturnsSafe(s: State, t: ThreadId, f: Frame)
    requires Inv(s) && Stack(s, t) != [] && f == Stack(s, t)[|Stack(s, t)| - 1] && f.Iterating? && f.calling.Some?
    ensures DoTop(s, t, ObserverReturns(t), f).Next? && Inv(DoTop(s, t, ObserverReturns(t), f).state)
  {
    hide ContextOk, Inv;
    TopContext(s, t, f);
    var k := s.heap[f.context];
    ContextFacts(k, Mapped(s, t, f.context), Stack(s, t), f.context);
    var rest := [f.(calling := None)];
    TopStepSafe(s, t, f, rest, Some(k), false, {});
    SameContext(s, t, f, rest);
    assert DoTop(s, t, ObserverReturns(t), f) == Next(TopStep(s, t, rest, Some(k), false, {}));
  }

  lemma TestEmptySafe(s: State, t: ThreadId, f: Frame)
    requires Inv(s) && Stack(s, t) != [] && f == Stack(s, t)[|Stack(s, t)| - 1] && f.Leaving?
    ensures DoTop(s, t, TestEmpty(t), f).Next? && Inv(DoTop(s, t, TestEmpty(t), f).state)
  {
    hide ContextOk, Inv;
    TopContext(s, t, f);
    var k := s.heap[f.context];
    ContextFacts(k, Mapped(s, t, f.context), Stack(s, t), f.context);
    var rest := if k.slots == [] then [Unmapping(f.context)] else [];
    assert k.slots != [] && k.depth == 0 ==> k.slots[0].Some?;
    TopStepSafe(s, t, f, rest, Some(k), false, {});
    SameContext(s, t, f, rest);
    NoneAdded(s, t);
    assert DoTop(s, t, TestEmpty(t), f) == Next(TopStep(s, t, rest, Some(k), false, {}));
  }

  lemma UnmapSafe(s: State, t: ThreadId, f: Frame)
    requires Inv(s) && Stack(s, t) != [] && f == Stack(s, t)[|Stack(s, t)| - 1] && f.Unmapping?
    ensures DoTop(s, t, Unmap(t), f).Next? && Inv(DoTop(s, t, Unmap(t), f).state)
  {
    hide ContextOk, Inv;
    TopContext(s, t, f);
    var k := s.heap[f.context];
    ContextFacts(k, Mapped(s, t, f.context), Stack(s, t), f.context);
    var unmap := Mapped(s, t, f.context);
    TopStepSafe(s, t, f, [Deleting(f.context)], Some(k), unmap, {});
    SameContext(s, t, f, [Deleting(f.context)]);
    assert s.heap[f.context := k] == s.heap;
    NoneAdded(s, t);
    assert DoTop(s, t, Unmap(t), f) == Next(TopStep(s, t, [Deleting(f.context)], Some(k), unmap, {}));
  }

  lemma DeleteSafe(s: State, t: ThreadId, f: Frame)
    requires Inv(s) && Stack(s, t) != [] && f == Stack(s, t)[|Stack(s, t)| - 1] && f.Deleting?
    ensures DoTop(s, t, Delete(t), f).Next? && Inv(DoTop(s, t, Delete(t), f).state)
  {
    hide ContextOk, Inv;
    TopContext(s, t, f);
    ContextFacts(s.heap[f.context], Mapped(s, t, f.context), Stack(s, t), f.context);
    TopStepSafe(s, t, f, [], None, false, {});
    NoneAdded(s, t);
    assert DoTop(s, t, Delete(t), f) == Next(TopStep(s, t, [], None, false, {}));
  }

  lemma RunTaskSafe(s: State, task: Task)
    requires Inv(s) && InClientCode(Stack(s, task.thread))
    ensures DoRunTask(s, task).Next? && Inv(DoRunTask(s, task).state)
  {
    hide Depth, Unfinished, StackOk, SameElsewhere;
    var s', t, c := DoRunTask(s, task).state, task.thread, task.context;
    if Mapped(s, t, c) {
      assert ContextOk(s.heap[c], Mapped(s, t, c), Stack(s, t), c);
      assert StackOk(s.heap, t, Stack(s, t));
      PushStack(Stack(s, t), Entering(c));
      PushOk(s.heap, t, Stack(s, t), Entering(c));
      LocalStep(s, s', t, c);
    } else {
      BookkeepingSafe(s, s');
    }
  }

  /** Posted tasks and message loops do not enter into the invariant. */
  lemma BookkeepingSafe(s: State, s': State)
    requires Inv(s) && s' == s.(tasks := s'.tasks, looping := s'.looping)
    ensures Inv(s')
  {
    hide Depth, Unfinished, StackOk, ContextOk;
    forall t: ThreadId
      ensures StackOk(s'.heap, t, Stack(s', t))
    {
      assert StackOk(s.heap, t, Stack(s, t));
    }
    forall t: ThreadId, obs: Observer
      ensures (t, obs) in s'.registered <==> Notifiable(s', t, obs)
    {
      assert (t, obs) in s.registered <==> Notifiable(s, t, obs);
    }
  }

  lemma DoTopSafe(s: State, t: ThreadId, e: Event, f: Frame)
    requires Inv(s) && Stack(s, t) != [] && f == Stack(s, t)[|Stack(s, t)| - 1] && Actor(e) == t
    requires !e.RunTask? && !e.DropTask?
    ensures DoTop(s, t, e, f).Next? && Inv(DoTop(s, t, e, f).state)
  {
    hide Inv;
    match (e, f) {
      case (AddToList(_), Adding(_, _)) => AddToListSafe(s, t, f);
      case (RemoveFromList(_), Removing(_, _)) => RemoveFromListSafe(s, t, f);
      case (FinishRemove(_), AfterRemove(_)) => FinishRemoveSafe(s, t, f);
      case (BeginIteration(_), Entering(_)) => BeginIterationSafe(s, t, f);
      case (NextObserver(_), Iterating(_, _, _, None)) => NextObserverSafe(s, t, f);
      case (ObserverReturns(_), Iterating(_, _, _, Some(_))) => ObserverReturnsSafe(s, t, f);
      case (TestEmpty(_), Leaving(_)) => TestEmptySafe(s, t, f);
      case (Unmap(_), Unmapping(_)) => UnmapSafe(s, t, f);
      case (Delete(_), Deleting(_)) => DeleteSafe(s, t, f);
      case _ =>
    }
  }

  lemma ExecSafe(s: State, e: Event)
    requires Inv(s)
    ensures Exec(s, e).Next? && Inv(Exec(s, e).state)
  {
    var t := Actor(e);
    var stack := Stack(s, t);
    match e {
      case CallAdd(_, obs, storage) => if InClientCode(stack) { CallAddSafe(s, t, obs, storage); }
      case CallRemove(_, obs) => if InClientCode(stack) { CallRemoveSafe(s, t, obs); }
      case Notify(_) => if InClientCode(stack) { BookkeepingSafe(s, DoNotify(s).state); }
      case RunTask(task) => if InClientCode(stack) && task in s.tasks { RunTaskSafe(s, task); }
      case DropTask(_) => BookkeepingSafe(s, Exec(s, e).state);
      case SetLoop(_, _) => BookkeepingSafe(s, Exec(s, e).state);
      case _ => if stack != [] { DoTopSafe(s, t, e, stack[|stack| - 1]); }
    }
  }

  // ----- the results -----

  /**
   Context lifetime.  In no run is a freed context followed or freed again,
   whichever free memory the allocator returns.
   */
  lemma {:induction false} RunsAreSafe(s: State, events: seq<Event>)
    requires Inv(s)
    ensures Run(s, events).Next? && Inv(Run(s, events).state)
    decreases |events|
  {
    if events != [] {
      ExecSafe(s, events[0]);
      RunsAreSafe(Exec(s, events[0]).state, events[1..]);
    }
  }

  lemma InitialIsSafe(kind: NotificationType)
    ensures Inv(Initial(kind))
  {
  }

  ghost predicate Reachable(s: State) {
    exists kind, events :: Run(Initial(kind), events) == Next(s)
  }

  lemma ReachableInv(s: State)
    requires Reachable(s)
    ensures Inv(s)
  {
    var kind, events :| Run(Initial(kind), events) == Next(s);
    RunsAreSafe(Initial(kind), events);
  }

  /**
   Every mapped context is alive and belongs to the thread it is mapped for.  A context that
   is alive but no longer mapped is, unless its thread is in the middle of a call on it,
   being iterated by that thread and holds nothing but nulls.
   */
  lemma AliveAndMapped(s: State)
    requires Reachable(s)
    ensures forall t :: t in s.lists ==> s.lists[t] in s.heap && s.heap[s.lists[t]].owner == t
    ensures forall c :: c in s.heap && !Mapped(s, s.heap[c].owner, c) && Unfinished(Stack(s, s.heap[c].owner), c) == None ==>
      Depth(Stack(s, s.heap[c].owner), c) > 0 && AllNull(s.heap[c].slots)
  {
    ReachableInv(s);
    forall c | c in s.heap && !Mapped(s, s.heap[c].owner, c) && Unfinished(Stack(s, s.heap[c].owner), c) == None
      ensures Depth(Stack(s, s.heap[c].owner), c) > 0 && AllNull(s.heap[c].slots)
    {
      assert ContextOk(s.heap[c], false, Stack(s, s.heap[c].owner), c);
    }
  }

  /** When no call is in progress, the live contexts are exactly the mapped ones: the destructor frees each once and leaks none. */
  lemma QuiescentAliveIsMapped(s: State)
    requires Reachable(s)
    requires forall t: ThreadId :: Stack(s, t) == []
    ensures s.heap.Keys == s.lists.Values
    ensures forall t, u :: t in s.lists && u in s.lists && s.lists[t] == s.lists[u] ==> t == u
    ensures forall c :: c in s.heap ==> s.heap[c].depth == 0 && s.heap[c].slots != [] && NoNulls(s.heap[c].slots)
  {
    ReachableInv(s);
    forall c | c in s.heap
      ensures c in s.lists.Values
      ensures s.heap[c].depth == 0 && s.heap[c].slots != [] && NoNulls(s.heap[c].slots)
    {
      assert ContextOk(s.heap[c], Mapped(s, s.heap[c].owner, c), [], c);
      assert Mapped(s, s.heap[c].owner, c);
    }
  }

  ghost predicate CallsOnlyRegistered(s: State, t: ThreadId) {
    var after := Exec(s, NextObserver(t));
    after.Next? && Stack(after.state, t) != [] &&
    var f := Stack(after.state, t)[|Stack(after.state, t)| - 1];
    f.Iterating? && f.calling.Some? ==> (t, f.calling.value) in s.registered && after.state.registered == s.registered
  }

  lemma NotifiableIsRegistered(s: State, t: ThreadId, obs: Observer)
    requires Inv(s) && Notifiable(s, t, obs)
    ensures (t, obs) in s.registered
  {
  }

  lemma NextCalls(s: State, t: ThreadId, f: Frame)
    requires Stack(s, t) != [] && f == Stack(s, t)[|Stack(s, t)| - 1] && f.Iterating? && f.calling.None? && f.context in s.heap
    ensures var slots := s.heap[f.context].slots; var limit := CursorLimit(f.maxIndex, |slots|);
      var stop := SkipNulls(slots, f.index, limit);
      && Exec(s, NextObserver(t)).Next? && Exec(s, NextObserver(t)).state.registered == s.registered
      && var stack := Stack(Exec(s, NextObserver(t)).state, t);
      && stack != [] && (stop < limit ==> stack[|stack| - 1] == f.(index := stop + 1, calling := slots[stop]))
      && (stop >= limit ==> stack[|stack| - 1].Leaving?)
  {
  }

  lemma CalledIsRegistered(s: State, t: ThreadId)
    requires Inv(s) && Stack(s, t) != []
    requires var f := Stack(s, t)[|Stack(s, t)| - 1]; f.Iterating? && f.calling.None?
    ensures CallsOnlyRegistered(s, t)
  {
    ExecSafe(s, NextObserver(t));
    var f := Stack(s, t)[|Stack(s, t)| - 1];
    TopContext(s, t, f);
    var k := s.heap[f.context];
    var limit := CursorLimit(f.maxIndex, |k.slots|);
    var stop := SkipNulls(k.slots, f.index, limit);
    if stop < limit {
      assert k.slots[stop].Some?;
      assert Notifiable(s, t, k.slots[stop].value);
      NotifiableIsRegistered(s, t, k.slots[stop].value);
    }
    NextCalls(s, t, f);
    hide Inv, Notifiable, Exec;
  }

  /** Delivery safety: an observer is called only on a thread where it is registered at that moment. */
  lemma DeliversToRegistered(s: State, t: ThreadId)
    requires Reachable(s) && Stack(s, t) != []
    requires var f := Stack(s, t)[|Stack(s, t)| - 1]; f.Iterating? && f.calling.None?
    ensures CallsOnlyRegistered(s, t)
  {
    ReachableInv(s);
    CalledIsRegistered(s, t);
  }

  // ----- stale tasks -----

  /** No allocation in this run returns an address that was ever in use before. */
  ghost predicate NeverReuses(s: State, events: seq<Event>)
    decreases |events|
  {
    events != [] ==>
      && (events[0].CallAdd? ==> events[0].storage !in s.used)
      && (Exec(s, events[0]).Next? ==> NeverReuses(Exec(s, events[0]).state, events[1..]))
  }

  /** A posted pointer still means the context it was posted for, or one that has been freed. */
  ghost predicate TasksCurrent(s: State) {
    && s.heap.Keys <= s.used
    && forall task :: task in s.tasks ==>
      task.context in s.used && (task.context in s.heap ==> s.heap[task.context].born == task.born)
  }

  /** Nothing but an allocation makes an address live or gives it another identity. */
  lemma TopKeepsBirths(s: State, t: ThreadId, e: Event, f: Frame)
    requires Stack(s, t) != [] && DoTop(s, t, e, f).Next?
    ensures var s' := DoTop(s, t, e, f).state;
      s'.used == s.used && s'.tasks == s.tasks && s'.heap.Keys <= s.heap.Keys && forall c :: c in s'.heap ==> s'.heap[c].born == s.heap[c].born
  {
  }

  lemma NotifyKeepsTasksCurrent(s: State)
    requires TasksCurrent(s) && DoNotify(s).Next?
    ensures TasksCurrent(DoNotify(s).state)
  {
    var s' := DoNotify(s).state;
    forall task | task in s'.tasks
      ensures task.context in s.used && (task.context in s.heap ==> s.heap[task.context].born == task.born)
    {
      if task !in s.tasks {
        var t :| t in s.lists && task == Task(s.heap[s.lists[t]].owner, s.lists[t], s.heap[s.lists[t]].born);
      }
    }
  }

  lemma AddKeepsTasksCurrent(s: State, t: ThreadId, obs: Observer, storage: Address)
    requires TasksCurrent(s) && storage !in s.used
    ensures DoCallAdd(s, t, obs, storage).Next? ==> TasksCurrent(DoCallAdd(s, t, obs, storage).state)
  {
  }

  lemma RemoveKeepsTasksCurrent(s: State, t: ThreadId, obs: Observer)
    requires TasksCurrent(s)
    ensures DoCallRemove(s, t, obs).Next? ==> TasksCurrent(DoCallRemove(s, t, obs).state)
  {
  }

  lemma NoNewTasks(s: State, s': State)
    requires TasksCurrent(s) && s'.used == s.used && s'.tasks <= s.tasks && s'.heap.Keys <= s.heap.Keys
    requires forall c :: c in s'.heap ==> s'.heap[c].born == s.heap[c].born
    ensures TasksCurrent(s')
  {
  }

  lemma RunTaskAddsNone(s: State, task: Task)
    ensures DoRunTask(s, task).Next?
    ensures var s' := DoRunTask(s, task).state; s'.used == s.used && s'.tasks <= s.tasks && s'.heap == s.heap
  {
  }

  lemma ExecKeepsTasksCurrent(s: State, e: Event)
    requires Inv(s) && TasksCurrent(s)
    requires e.CallAdd? ==> e.storage !in s.used
    ensures Exec(s, e).Next? && TasksCurrent(Exec(s, e).state)
  {
    hide Inv, TasksCurrent, DoNotify, DoCallAdd, DoCallRemove, DoRunTask, DoTop;
    ExecSafe(s, e);
    var t := Actor(e);
    var stack := Stack(s, t);
    match e {
      case CallAdd(_, obs, storage) => AddKeepsTasksCurrent(s, t, obs, storage);
      case CallRemove(_, obs) => RemoveKeepsTasksCurrent(s, t, obs);
      case Notify(_) => if InClientCode(stack) { NotifyKeepsTasksCurrent(s); }
      case RunTask(task) =>
        RunTaskAddsNone(s, task);
        NoNewTasks(s, Exec(s, e).state);
      case DropTask(_) => NoNewTasks(s, Exec(s, e).state);
      case SetLoop(_, _) => NoNewTasks(s, Exec(s, e).state);
      case _ => if stack != [] {
        TopKeepsBirths(s, t, e, stack[|stack| - 1]);
        NoNewTasks(s, Exec(s, e).state);
      }
    }
  }

  lemma {:induction false} RunKeepsTasksCurrent(s: State, events: seq<Event>)
    requires Inv(s) && TasksCurrent(s) && NeverReuses(s, events)
    ensures Run(s, events).Next? && TasksCurrent(Run(s, events).state)
    decreases |events|
  {
    if events != [] {
      ExecSafe(s, events[0]);
      ExecKeepsTasksCurrent(s, events[0]);
      hide Inv, TasksCurrent, Exec;
      RunKeepsTasksCurrent(Exec(s, events[0]).state, events[1..]);
    }
  }

  /**
   When addresses are not reused, a task starts notifying only the very context it was
   posted for; for a context that has been removed since, even if the thread has another
   one by now, it does nothing at all.
   */
  lemma StaleTasksDoNothing(kind: NotificationType, events: seq<Event>, task: Task)
    requires NeverReuses(Initial(kind), events)
    requires Run(Initial(kind), events).Next?
    requires task in Run(Initial(kind), events).state.tasks
    ensures var s := Run(Initial(kind), events).state;
      if Mapped(s, task.thread, task.context) && task.context in s.heap && s.heap[task.context].born == task.born
      then InClientCode(Stack(s, task.thread)) ==>
        Exec(s, RunTask(task)) == Next(Push(s.(tasks := s.tasks - multiset{task}), task.thread, Entering(task.context)))
      else InClientCode(Stack(s, task.thread)) ==>
        Exec(s, RunTask(task)) == Next(s.(tasks := s.tasks - multiset{task}))
  {
    InitialIsSafe(kind);
    RunKeepsTasksCurrent(Initial(kind), events);
    var s := Run(Initial(kind), events).state;
    RunsAreSafe(Initial(kind), events);
    assert Mapped(s, task.thread, task.context) ==> task.context in s.heap;
  }
}
