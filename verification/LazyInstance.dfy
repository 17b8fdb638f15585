/**
 base/lazy_instance.h and base/lazy_instance.cc: an object built the first time any thread
 asks for it.  One atomic word is the spinlock and the pointer: 0, then 1 while some thread
 builds, then the address.

 A step is one atomic access, or the start or the end of the constructor; any number of
 threads take steps in any order.
 */
module LazyInstance {
  type ThreadId = nat
  type AtomicWord = nat

  const STATE_CREATING: AtomicWord := 1

  /** value & kLazyInstanceCreatedMask: the lowest bit cleared. */
  function Masked(word: AtomicWord): AtomicWord {
    word - word % 2
  }

  /** What the preallocated space holds. */
  datatype Storage = Raw | UnderConstruction(builder: ThreadId) | Constructed

  /** Where a thread is inside Pointer(): which access it does next. */
  datatype Place =
    | Outside
    | AtSwap          // the first load found no instance
    | Spinning        // lost the swap
    | AtNew           // won the swap
    | InsideNew
    | AtStore         // the constructor has returned
    | AtRegister      // the address is published
    | AtInstance      // about to load the pointer it returns

  /** A return of Pointer(): the pointer, and what was in the space and how often New and OnExit had run then. */
  datatype Return = Return(thread: ThreadId, pointer: AtomicWord, storage: Storage, constructions: nat, destructions: nat)

  datatype State = State(
    word: AtomicWord,
    storage: Storage,
    places: map<ThreadId, Place>,
    constructions: nat,
    destructions: nat,
    atExit: nat,
    returned: seq<Return>)

  datatype Event = Call(thread: ThreadId) | Resume(thread: ThreadId) | Exit

  function Initial(): State {
    State(0, Raw, map[], 0, 0, 0, [])
  }

  function PlaceOf(s: State, t: ThreadId): Place {
    if t in s.places then s.places[t] else Outside
  }

  function Goto(s: State, t: ThreadId, p: Place): State {
    s.(places := s.places[t := p])
  }

  /** The test of the fast path.  The address of an object passes it: NULL and the lock's value are not addresses. */
  predicate Created(word: AtomicWord) {
    Masked(word) != 0
  }

  /** OnExit is called once no thread is using the instance. */
  predicate Quiet(s: State) {
    forall t <- s.places :: s.places[t] == Outside
  }

  /** `leaky` is !kRegisterOnExit. */
  function Step(s: State, buffer: AtomicWord, leaky: bool, e: Event): State {
    match e
    case Call(t) =>
      if PlaceOf(s, t) != Outside then s
      else Goto(s, t, if Created(s.word) then AtInstance else AtSwap)
    case Resume(t) => Resumed(s, buffer, leaky, t)
    case Exit =>
      if s.atExit == 0 || !Quiet(s) then s
      else s.(word := 0, storage := Raw, destructions := s.destructions + 1, atExit := s.atExit - 1)
  }

  function Resumed(s: State, buffer: AtomicWord, leaky: bool, t: ThreadId): State {
    match PlaceOf(s, t)
    case Outside => s
    case AtSwap => if s.word == 0 then Goto(s, t, AtNew).(word := STATE_CREATING) else Goto(s, t, Spinning)
    case Spinning => if s.word == STATE_CREATING then s else Goto(s, t, AtInstance)
    case AtNew => Goto(s, t, InsideNew).(storage := UnderConstruction(t), constructions := s.constructions + 1)
    case InsideNew => Goto(s, t, AtStore).(storage := Constructed)
    case AtStore => Goto(s, t, if leaky then AtInstance else AtRegister).(word := buffer)
    case AtRegister => Goto(s, t, AtInstance).(atExit := s.atExit + 1)
    case AtInstance => Goto(s, t, Outside).(returned := s.returned + [Return(t, s.word, s.storage, s.constructions, s.destructions)])
  }

  function Run(s: State, buffer: AtomicWord, leaky: bool, events: seq<Event>): State
    decreases |events|
  {
    if events == [] then s else Run(Step(s, buffer, leaky, events[0]), buffer, leaky, events[1..])
  }

  // ----- the invariant -----

  predicate Creating(p: Place) {
    p == AtNew || p == InsideNew || p == AtStore
  }

  /** The mask test of the fast path tells an address from the two small values. */
  lemma MaskTest(word: AtomicWord)
    ensures Created(word) <==> word != 0 && word != STATE_CREATING
  {
  }

  /** What a thread's place says about the word and the space. */
  predicate Placed(s: State, buffer: AtomicWord, t: ThreadId) {
    match PlaceOf(s, t)
    case AtNew => s.word == STATE_CREATING && s.storage == Raw
    case InsideNew => s.word == STATE_CREATING && s.storage == UnderConstruction(t)
    case AtStore => s.word == STATE_CREATING && s.storage == Constructed
    case AtRegister => s.word == buffer && s.atExit == 0
    case AtInstance => s.word == buffer
    case Spinning => s.word != 0
    case _ => true
  }

  ghost predicate Exclusive(s: State) {
    && (forall t, u :: Creating(PlaceOf(s, t)) && Creating(PlaceOf(s, u)) ==> t == u)
    && (forall t, u :: PlaceOf(s, t) == AtRegister && PlaceOf(s, u) == AtRegister ==> t == u)
  }

  /** Whoever returned got the address of an object whose constructor had finished, the only one since the last OnExit. */
  predicate GoodReturn(r: Return, buffer: AtomicWord) {
    r.pointer == buffer && r.storage == Constructed && r.constructions == r.destructions + 1
  }

  ghost predicate Safe(s: State, buffer: AtomicWord, leaky: bool) {
    && (forall t :: Placed(s, buffer, t))
    && Exclusive(s)
    && (s.word == 0 || s.word == STATE_CREATING || s.word == buffer)
    && (s.word == 0 ==> s.storage == Raw && s.atExit == 0)
    && (s.word == STATE_CREATING ==> s.atExit == 0 && exists t :: Creating(PlaceOf(s, t)))
    && (s.word == buffer ==> s.storage == Constructed)
    && (s.word == buffer ==> s.atExit == if leaky || (exists t :: PlaceOf(s, t) == AtRegister) then 0 else 1)
    && (leaky ==> forall t :: PlaceOf(s, t) != AtRegister)
    && s.constructions == s.destructions + (if s.storage == Raw then 0 else 1)
    && (leaky ==> s.destructions == 0)
    && (forall r <- s.returned :: GoodReturn(r, buffer))
  }

  lemma StepKeepsSafe(s: State, buffer: AtomicWord, leaky: bool, e: Event)
    requires Created(buffer) && Safe(s, buffer, leaky)
    ensures Safe(Step(s, buffer, leaky, e), buffer, leaky)
  {
    MaskTest(s.word);
    MaskTest(buffer);
    match e
    case Call(t) =>
      var after := Step(s, buffer, leaky, e);
      forall u ensures Placed(after, buffer, u) && (u != t ==> PlaceOf(after, u) == PlaceOf(s, u)) {
        assert Placed(s, buffer, u);
      }
    case Resume(t) =>
      Moved(s, buffer, leaky, t);
    case Exit =>
      var after := Step(s, buffer, leaky, e);
      forall u ensures PlaceOf(after, u) == PlaceOf(s, u) && Placed(after, buffer, u) {
        assert Placed(s, buffer, u);
      }
  }

  lemma OnlyItsPlace(s: State, buffer: AtomicWord, leaky: bool, t: ThreadId)
    ensures forall u :: u != t ==> PlaceOf(Resumed(s, buffer, leaky, t), u) == PlaceOf(s, u)
    ensures var after, p := PlaceOf(Resumed(s, buffer, leaky, t), t), PlaceOf(s, t);
      && (p == AtSwap ==> after == if s.word == 0 then AtNew else Spinning)
      && (p == Spinning ==> after == if s.word == STATE_CREATING then Spinning else AtInstance)
      && (p == AtNew ==> after == InsideNew)
      && (p == InsideNew ==> after == AtStore)
      && (p == AtStore ==> after == if leaky then AtInstance else AtRegister)
      && (p == AtRegister ==> after == AtInstance)
      && (p == AtInstance || p == Outside ==> after == Outside)
  {
  }

  lemma Moved(s: State, buffer: AtomicWord, leaky: bool, t: ThreadId)
    requires buffer != 0 && buffer != STATE_CREATING && Safe(s, buffer, leaky)
    ensures Safe(Resumed(s, buffer, leaky, t), buffer, leaky)
  {
    var after := Resumed(s, buffer, leaky, t);
    OnlyItsPlace(s, buffer, leaky, t);
    assert Placed(s, buffer, t);
    forall u
      ensures Placed(after, buffer, u)
      ensures Creating(PlaceOf(s, u)) ==> s.word == STATE_CREATING
      ensures PlaceOf(s, u) == AtRegister ==> s.word == buffer
    {
      hide PlaceOf;
      assert Placed(s, buffer, u);
    }
    hide PlaceOf, Placed;
  }

  lemma {:induction false} RunIsSafe(s: State, buffer: AtomicWord, leaky: bool, events: seq<Event>)
    requires Created(buffer) && Safe(s, buffer, leaky)
    ensures Safe(Run(s, buffer, leaky, events), buffer, leaky)
    decreases |events|
  {
    if events != [] {
      StepKeepsSafe(s, buffer, leaky, events[0]);
      RunIsSafe(Step(s, buffer, leaky, events[0]), buffer, leaky, events[1..]);
    }
  }

  predicate Published(s: State, buffer: AtomicWord, leaky: bool) {
    && s.word == buffer && s.storage == Constructed && s.constructions == s.destructions + 1
    && s.atExit == if leaky then 0 else 1
  }

  /**
   However the threads interleave: one thread at most is creating; New has run at most once
   more than OnExit; every pointer returned is the one object, constructed; and an object
   that is published has exactly one destructor call scheduled for exit, unless it leaks.
   */
  lemma CreatedOnce(buffer: AtomicWord, leaky: bool, events: seq<Event>)
    requires Created(buffer)
    ensures var s := Run(Initial(), buffer, leaky, events);
      && (forall t, u :: Creating(PlaceOf(s, t)) && Creating(PlaceOf(s, u)) ==> t == u)
      && s.destructions <= s.constructions <= s.destructions + 1
      && (forall r <- s.returned :: r.pointer == buffer && r.storage == Constructed && r.constructions == r.destructions + 1)
      && (Quiet(s) ==> (s.word == 0 && s.constructions == s.destructions && s.atExit == 0) || Published(s, buffer, leaky))
  {
    assert forall t :: Placed(Initial(), buffer, t);
    RunIsSafe(Initial(), buffer, leaky, events);
    var s := Run(Initial(), buffer, leaky, events);
    if Quiet(s) {
      assert forall t :: PlaceOf(s, t) == Outside;
    }
  }

  // ----- what OnExit leaves behind -----

  lemma {:induction false} RunAppend(s: State, buffer: AtomicWord, leaky: bool, first: seq<Event>, later: seq<Event>)
    ensures Run(s, buffer, leaky, first + later) == Run(Run(s, buffer, leaky, first), buffer, leaky, later)
    decreases |first|
  {
    hide Step;
    if first == [] {
      assert first + later == later;
    } else {
      assert (first + later)[1..] == first[1..] + later;
      RunAppend(Step(s, buffer, leaky, first[0]), buffer, leaky, first[1..], later);
    }
  }

  function Resumes(t: ThreadId, n: nat): seq<Event> {
    seq(n, _ => Resume(t))
  }

  /** One thread's call of Pointer() in which nobody disturbs it, when there is no instance yet. */
  function CallAlone(t: ThreadId): seq<Event> {
    [Call(t)] + Resumes(t, 6)
  }

  lemma RunFirst(s: State, buffer: AtomicWord, leaky: bool, e: Event, later: seq<Event>)
    ensures Run(s, buffer, leaky, [e] + later) == Run(Step(s, buffer, leaky, e), buffer, leaky, later)
  {
    assert ([e] + later)[1..] == later;
    hide Step;
  }

  lemma ResumeFirst(s: State, buffer: AtomicWord, leaky: bool, t: ThreadId, n: nat)
    requires n > 0
    ensures Run(s, buffer, leaky, Resumes(t, n)) == Run(Resumed(s, buffer, leaky, t), buffer, leaky, Resumes(t, n - 1))
  {
    RunFirst(s, buffer, leaky, Resume(t), Resumes(t, n - 1));
    assert Resumes(t, n) == [Resume(t)] + Resumes(t, n - 1);
    hide Resumed;
  }

  lemma RunNothing(s: State, buffer: AtomicWord, leaky: bool, t: ThreadId)
    ensures Run(s, buffer, leaky, Resumes(t, 0)) == s
  {
  }

  lemma RunCall(s: State, buffer: AtomicWord, t: ThreadId)
    ensures Run(s, buffer, false, CallAlone(t)) == Run(Step(s, buffer, false, Call(t)), buffer, false, Resumes(t, 6))
  {
    RunFirst(s, buffer, false, Call(t), Resumes(t, 6));
  }

  /** The next call after the exit finds no instance and constructs another. */
  lemma BuildsAgain(s: State, buffer: AtomicWord, t: ThreadId)
    requires Created(buffer) && PlaceOf(s, t) == Outside && s.word == 0
    ensures Run(s, buffer, false, CallAlone(t)).returned
      == s.returned + [Return(t, buffer, Constructed, s.constructions + 1, s.destructions)]
  {
    hide Run, Resumes, CallAlone;
    RunCall(s, buffer, t);
    var s1 := Step(s, buffer, false, Call(t));
    var s2 := Resumed(s1, buffer, false, t);
    var s3 := Resumed(s2, buffer, false, t);
    var s4 := Resumed(s3, buffer, false, t);
    var s5 := Resumed(s4, buffer, false, t);
    var s6 := Resumed(s5, buffer, false, t);
    ResumeFirst(s1, buffer, false, t, 6);
    ResumeFirst(s2, buffer, false, t, 5);
    ResumeFirst(s3, buffer, false, t, 4);
    ResumeFirst(s4, buffer, false, t, 3);
    ResumeFirst(s5, buffer, false, t, 2);
    ResumeFirst(s6, buffer, false, t, 1);
    RunNothing(Resumed(s6, buffer, false, t), buffer, false, t);
  }

  /**
   In any run, once no thread is inside: OnExit destroys the instance there is, leaves the
   word clear and nothing scheduled, and the next call constructs a new instance and returns
   it; without an instance, or when it leaks, the exit changes nothing.
   */
  lemma ExitDestroys(buffer: AtomicWord, leaky: bool, events: seq<Event>, t: ThreadId)
    requires Created(buffer) && Quiet(Run(Initial(), buffer, leaky, events))
    ensures var s, after := Run(Initial(), buffer, leaky, events), Run(Initial(), buffer, leaky, events + [Exit]);
      && after.returned == s.returned && after.constructions == s.constructions
      && (if leaky || s.constructions == s.destructions then after == s
          else after.destructions == s.constructions && after.word == 0 && after.storage == Raw && after.atExit == 0)
      && (!leaky ==>
            Run(after, buffer, leaky, CallAlone(t)).returned
              == s.returned + [Return(t, buffer, Constructed, s.constructions + 1, s.constructions)])
  {
    var s := Run(Initial(), buffer, leaky, events);
    RunAppend(Initial(), buffer, leaky, events, [Exit]);
    CreatedOnce(buffer, leaky, events);
    var after := Step(s, buffer, leaky, Exit);
    assert Run(s, buffer, leaky, [Exit]) == after;
    if !leaky {
      BuildsAgain(after, buffer, t);
    }
  }

  // ----- nobody waits for ever -----

  /** How many accesses of its own a thread needs at most until its call returns, once no other thread is creating. */
  function StepsLeft(p: Place): nat {
    match p
    case Outside => 0
    case AtInstance => 1
    case AtRegister => 2
    case Spinning => 2
    case AtStore => 3
    case InsideNew => 4
    case AtNew => 5
    case AtSwap => 6
  }

  /** t's call has returned, with a good pointer, and nobody else's has. */
  predicate HasReturned(before: State, after: State, buffer: AtomicWord, t: ThreadId) {
    && PlaceOf(after, t) == Outside && after.word == buffer
    && |after.returned| == |before.returned| + 1 && before.returned <= after.returned
    && after.returned[|before.returned|].thread == t && GoodReturn(after.returned[|before.returned|], buffer)
  }

  lemma {:induction false} IdleResumes(s: State, buffer: AtomicWord, leaky: bool, t: ThreadId, n: nat)
    requires PlaceOf(s, t) == Outside
    ensures Run(s, buffer, leaky, Resumes(t, n)) == s
  {
    hide Run, Resumes;
    if n == 0 {
      RunNothing(s, buffer, leaky, t);
    } else {
      ResumeFirst(s, buffer, leaky, t, n);
      IdleResumes(s, buffer, leaky, t, n - 1);
    }
  }

  /** One step brings the thread nearer to its return; the last is the return. */
  lemma NearerToReturn(s: State, buffer: AtomicWord, leaky: bool, t: ThreadId)
    requires Created(buffer) && Safe(s, buffer, leaky) && PlaceOf(s, t) != Outside
    requires s.word != STATE_CREATING || Creating(PlaceOf(s, t))
    ensures var after := Resumed(s, buffer, leaky, t);
      && Safe(after, buffer, leaky)
      && StepsLeft(PlaceOf(after, t)) < StepsLeft(PlaceOf(s, t))
      && (after.word != STATE_CREATING || Creating(PlaceOf(after, t)))
      && if PlaceOf(after, t) == Outside then HasReturned(s, after, buffer, t) else after.returned == s.returned
  {
    MaskTest(buffer);
    Moved(s, buffer, leaky, t);
    OnlyItsPlace(s, buffer, leaky, t);
    assert Placed(s, buffer, t);
    hide Exclusive, PlaceOf;
    assert s.constructions == s.destructions + if s.storage == Raw then 0 else 1;
  }

  lemma {:induction false} ReturnsAlone(s: State, buffer: AtomicWord, leaky: bool, t: ThreadId, n: nat)
    requires Created(buffer) && Safe(s, buffer, leaky) && PlaceOf(s, t) != Outside
    requires s.word != STATE_CREATING || Creating(PlaceOf(s, t))
    requires n >= StepsLeft(PlaceOf(s, t))
    ensures HasReturned(s, Run(s, buffer, leaky, Resumes(t, n)), buffer, t)
    decreases n
  {
    var after := Resumed(s, buffer, leaky, t);
    NearerToReturn(s, buffer, leaky, t);
    hide Run, Resumes, Resumed, Safe;
    ResumeFirst(s, buffer, leaky, t, n);
    if PlaceOf(after, t) == Outside {
      IdleResumes(after, buffer, leaky, t, n - 1);
    } else {
      ReturnsAlone(after, buffer, leaky, t, n - 1);
    }
  }

  lemma {:induction false} OthersStay(s: State, buffer: AtomicWord, leaky: bool, t: ThreadId, u: ThreadId, n: nat)
    requires t != u
    ensures PlaceOf(Run(s, buffer, leaky, Resumes(u, n)), t) == PlaceOf(s, t)
    decreases n
  {
    hide Run, Resumes, Resumed, PlaceOf;
    if n == 0 {
      RunNothing(s, buffer, leaky, u);
    } else {
      ResumeFirst(s, buffer, leaky, u, n);
      OnlyItsPlace(s, buffer, leaky, u);
      OthersStay(Resumed(s, buffer, leaky, u), buffer, leaky, t, u, n - 1);
    }
  }

  /**
   In every run, a call under way returns a good pointer once the thread that is creating, if
   there is one, has taken at most five more steps, and the caller six.
   */
  lemma NobodyIsStuck(buffer: AtomicWord, leaky: bool, events: seq<Event>, t: ThreadId) returns (creator: ThreadId)
    requires Created(buffer) && PlaceOf(Run(Initial(), buffer, leaky, events), t) != Outside
    ensures var s := Run(Initial(), buffer, leaky, events);
      var ready := Run(s, buffer, leaky, Resumes(creator, 5));
      if s.word != STATE_CREATING then HasReturned(s, Run(s, buffer, leaky, Resumes(t, 6)), buffer, t)
      else HasReturned(s, ready, buffer, creator) && (t == creator || HasReturned(ready, Run(ready, buffer, leaky, Resumes(t, 6)), buffer, t))
  {
    var s := Run(Initial(), buffer, leaky, events);
    assert forall u :: Placed(Initial(), buffer, u);
    RunIsSafe(Initial(), buffer, leaky, events);
    MaskTest(buffer);
    hide Run, Resumes, PlaceOf;
    creator := t;
    if s.word != STATE_CREATING {
      ReturnsAlone(s, buffer, leaky, t, 6);
    } else {
      creator :| Creating(PlaceOf(s, creator));
      ReturnsAlone(s, buffer, leaky, creator, 5);
      if t != creator {
        var ready := Run(s, buffer, leaky, Resumes(creator, 5));
        OthersStay(s, buffer, leaky, t, creator, 5);
        hide Safe;
        RunIsSafe(s, buffer, leaky, Resumes(creator, 5));
        ReturnsAlone(ready, buffer, leaky, t, 6);
      }
    }
  }

  // ----- the same steps on the shared object -----

  class Lazy {
    const buffer: AtomicWord
    const leaky: bool
    var privateInstance: AtomicWord
    var storage: Storage
    var places: map<ThreadId, Place>
    var constructions: nat
    var destructions: nat
    var atExit: nat
    var returned: seq<Return>

    function Snapshot(): State
      reads this
    {
      State(privateInstance, storage, places, constructions, destructions, atExit, returned)
    }

    constructor (buffer: AtomicWord, leaky: bool)
      ensures Snapshot() == Initial() && this.buffer == buffer && this.leaky == leaky
    {
      this.buffer, this.leaky := buffer, leaky;
      privateInstance, storage, places := 0, Raw, map[];
      constructions, destructions, atExit, returned := 0, 0, 0, [];
    }

    method CompareAndSwap(expected: AtomicWord, desired: AtomicWord) returns (previous: AtomicWord)
      modifies this`privateInstance
      ensures previous == old(privateInstance)
      ensures privateInstance == if previous == expected then desired else previous
    {
      previous := privateInstance;
      if previous == expected {
        privateInstance := desired;
      }
    }

    /** Pointer(), up to and including its first load. */
    method Enter(t: ThreadId)
      modifies this`places
      ensures Snapshot() == Step(old(Snapshot()), buffer, leaky, Call(t))
    {
      if PlaceOf(Snapshot(), t) != Outside {
        return;
      }
      var value := privateInstance;
      places := places[t := if Masked(value) != 0 then AtInstance else AtSwap];
    }

    /** The thread's next access in Pointer(), NeedsLazyInstance or CompleteLazyInstance. */
    method Continue(t: ThreadId)
      modifies this
      ensures Snapshot() == Resumed(old(Snapshot()), buffer, leaky, t)
    {
      match PlaceOf(Snapshot(), t)
      case Outside =>
      case AtSwap =>
        var previous := CompareAndSwap(0, STATE_CREATING);
        places := places[t := if previous == 0 then AtNew else Spinning];
      case Spinning =>
        if privateInstance != STATE_CREATING {
          places := places[t := AtInstance];
        }
      case AtNew =>
        storage, constructions := UnderConstruction(t), constructions + 1;
        places := places[t := InsideNew];
      case InsideNew =>
        storage := Constructed;
        places := places[t := AtStore];
      case AtStore =>
        privateInstance := buffer;
        places := places[t := if leaky then AtInstance else AtRegister];
      case AtRegister =>
        atExit := atExit + 1;
        places := places[t := AtInstance];
      case AtInstance =>
        returned := returned + [Return(t, privateInstance, storage, constructions, destructions)];
        places := places[t := Outside];
    }

    method OnExit()
      requires atExit > 0 && Quiet(Snapshot())
      modifies this
      ensures Snapshot() == Step(old(Snapshot()), buffer, leaky, Exit)
      ensures privateInstance == 0 && storage == Raw && destructions == old(destructions) + 1 && atExit == old(atExit) - 1
    {
      atExit := atExit - 1;
      storage, destructions := Raw, destructions + 1;
      privateInstance := 0;
    }
  }

  /** A whole schedule, played on a new object; what its calls of Pointer() returned. */
  method Play(buffer: AtomicWord, leaky: bool, events: seq<Event>) returns (returned: seq<Return>)
    requires Created(buffer)
    ensures returned == Run(Initial(), buffer, leaky, events).returned
    ensures forall r <- returned :: GoodReturn(r, buffer)
  {
    var lazy := new Lazy(buffer, leaky);
    assert events[0..] == events;
    for i := 0 to |events|
      invariant fresh(lazy) && lazy.buffer == buffer && lazy.leaky == leaky
      invariant Run(lazy.Snapshot(), buffer, leaky, events[i..]) == Run(Initial(), buffer, leaky, events)
    {
      hide Resumed, Quiet;
      assert events[i..][0] == events[i] && events[i..][1..] == events[i + 1..];
      match events[i]
      case Call(t) => lazy.Enter(t);
      case Resume(t) => lazy.Continue(t);
      case Exit =>
        if lazy.atExit > 0 && Quiet(lazy.Snapshot()) {
          lazy.OnExit();
        }
    }
    CreatedOnce(buffer, leaky, events);
    returned := lazy.returned;
  }
}
