/**
 base/pending_task.cc: the order of the delayed-task queue, whose posting numbers wrap.

 A task is posted with a 32-bit number; `posted` is how many tasks had been posted before
 it, which the program does not keep.
 */
module PendingTask {
  const TWO_31: int := 0x8000_0000
  const TWO_32: int := 0x1_0000_0000

  datatype Task = Task(delayedRunTime: int, posted: nat)

  /** The value of a 32-bit signed computation whose exact result is n. */
  function Wrap(n: int): (w: int)
    ensures -TWO_31 <= w < TWO_31 && (w - n) % TWO_32 == 0
  {
    (n + TWO_31) % TWO_32 - TWO_31
  }

  function SequenceNum(t: Task): int {
    Wrap(t.posted)
  }

  /** operator<: the greatest task is on top. */
  predicate Less(a: Task, b: Task) {
    if a.delayedRunTime < b.delayedRunTime then false
    else if a.delayedRunTime > b.delayedRunTime then true
    else Wrap(SequenceNum(a) - SequenceNum(b)) > 0
  }

  /** The intended order: by time, then by posting. */
  predicate Before(a: Task, b: Task) {
    a.delayedRunTime < b.delayedRunTime || (a.delayedRunTime == b.delayedRunTime && a.posted < b.posted)
  }

  predicate Close(a: Task, b: Task) {
    -TWO_31 < a.posted - b.posted < TWO_31
  }

  lemma WrapDifference(a: Task, b: Task)
    ensures Wrap(SequenceNum(a) - SequenceNum(b)) == Wrap(a.posted - b.posted)
  {
    SameWrap(SequenceNum(a) - SequenceNum(b), a.posted - b.posted, (SequenceNum(a) - a.posted) / TWO_32 - (SequenceNum(b) - b.posted) / TWO_32);
  }

  lemma SameWrap(m: int, n: int, k: int)
    requires m == n + k * TWO_32
    ensures Wrap(m) == Wrap(n)
  {
  }

  /** On a tie both comparisons are right exactly when the later number is ahead by less than half the circle. */
  lemma TieIsRightIff(a: Task, b: Task)
    requires a.delayedRunTime == b.delayedRunTime && a.posted < b.posted
    ensures Less(b, a) && !Less(a, b) <==> 0 < (b.posted - a.posted) % TWO_32 < TWO_31
  {
    WrapDifference(a, b);
    WrapDifference(b, a);
    hide SequenceNum;
    WrapSign(b.posted - a.posted);
    hide Wrap;
  }

  lemma WrapSign(d: int)
    ensures Wrap(d) > 0 <==> 0 < d % TWO_32 < TWO_31
    ensures Wrap(-d) > 0 <==> TWO_31 < d % TWO_32
  {
    var r, q := d % TWO_32, d / TWO_32;
    SameWrap(d, r, q);
    SameWrap(-d, -r, -q);
  }

  /** Within half the circle the comparison is the intended order. */
  lemma LessIsLater(a: Task, b: Task)
    requires Close(a, b)
    ensures Less(a, b) <==> Before(b, a)
  {
    WrapDifference(a, b);
  }

  /** Half the circle apart, neither task is less; further apart, three tasks can chase each other. */
  lemma WrapMisorders()
    ensures !Less(Task(5, 0), Task(5, 0x8000_0000)) && !Less(Task(5, 0x8000_0000), Task(5, 0))
    ensures var a, b, c := Task(5, 0), Task(5, 0x6000_0000), Task(5, 0xc000_0000);
      Less(c, b) && Less(b, a) && Less(a, c)
  {
  }

  // ----- a queue -----

  /** Distinct postings that span less than half the circle. */
  ghost predicate SmallSpan(queue: multiset<Task>) {
    && (forall a, b :: a in queue && b in queue ==> Close(a, b))
    && (forall a, b :: a in queue && b in queue && a.posted == b.posted ==> a == b)
    && (forall a :: a in queue ==> queue[a] == 1)
  }

  /** std::priority_queue::top. */
  ghost predicate IsTop(queue: multiset<Task>, t: Task) {
    t in queue && forall u :: u in queue ==> !Less(t, u)
  }

  /** The comparison is a strict total order on the queue, so that the queue has one top at most. */
  lemma StrictTotalOrder(queue: multiset<Task>, a: Task, b: Task, c: Task)
    requires SmallSpan(queue) && a in queue && b in queue && c in queue
    ensures !Less(a, a)
    ensures Less(a, b) && Less(b, c) ==> Less(a, c)
    ensures a != b ==> Less(a, b) != Less(b, a)
  {
    hide Less;
    LessIsLater(a, a);
    LessIsLater(a, b);
    LessIsLater(b, a);
    LessIsLater(b, c);
    LessIsLater(a, c);
  }

  lemma TopIsFirst(queue: multiset<Task>, t: Task)
    requires SmallSpan(queue) && t in queue
    ensures IsTop(queue, t) <==> forall u :: u in queue && u != t ==> Before(t, u)
  {
    hide Less;
    forall u | u in queue ensures (u != t ==> (!Less(t, u) <==> Before(t, u))) && !Less(t, t) {
      LessIsLater(t, u);
      LessIsLater(t, t);
    }
  }

  /** popped is what popping the queue until it is empty yields. */
  ghost predicate PopsTo(queue: multiset<Task>, popped: seq<Task>)
    decreases |popped|
  {
    if popped == [] then queue == multiset{}
    else IsTop(queue, popped[0]) && PopsTo(queue - multiset{popped[0]}, popped[1..])
  }

  /** Tasks leave earliest first, and in the order of posting when the times are the same. */
  lemma {:induction false} PopsInOrder(queue: multiset<Task>, popped: seq<Task>)
    requires SmallSpan(queue) && PopsTo(queue, popped)
    ensures multiset(popped) == queue
    ensures forall i, j :: 0 <= i < j < |popped| ==> Before(popped[i], popped[j])
    decreases |popped|
  {
    if popped != [] {
      var first, rest := popped[0], queue - multiset{popped[0]};
      TopIsFirst(queue, first);
      RestIsSmall(queue, first);
      hide SmallSpan, IsTop, Before, Less;
      PopsInOrder(rest, popped[1..]);
      HeadAndRest(popped);
      forall j | 0 < j < |popped| ensures Before(first, popped[j]) {
        assert popped[j] == popped[1..][j - 1];
        assert popped[j] in multiset(popped[1..]);
      }
    }
  }

  lemma HeadAndRest(popped: seq<Task>)
    requires popped != []
    ensures multiset(popped) == multiset{popped[0]} + multiset(popped[1..])
  {
    assert popped == [popped[0]] + popped[1..];
  }

  lemma RestIsSmall(queue: multiset<Task>, first: Task)
    requires SmallSpan(queue) && first in queue
    ensures SmallSpan(queue - multiset{first})
    ensures forall u :: u in queue - multiset{first} ==> u in queue && u != first
  {
    hide Close;
  }

  /** Any tasks close to one another have a greatest, so the queue can always be popped until it is empty. */
  lemma {:induction false} HasTop(queue: multiset<Task>) returns (top: Task)
    requires SmallSpan(queue) && queue != multiset{}
    ensures IsTop(queue, top)
    decreases |queue|
  {
    var t :| t in queue;
    var rest := queue - multiset{t};
    hide Less, Close;
    forall u | u in queue ensures u == t || u in rest {
      assert u != t ==> rest[u] == queue[u];
    }
    StrictTotalOrder(queue, t, t, t);
    if rest == multiset{} {
      top := t;
    } else {
      RestIsSmall(queue, t);
      var other := HasTop(rest);
      top := if Less(other, t) then t else other;
      forall u | u in queue ensures !Less(top, u) {
        StrictTotalOrder(queue, other, t, u);
      }
    }
  }

  lemma {:induction false} CanPop(queue: multiset<Task>) returns (popped: seq<Task>)
    requires SmallSpan(queue)
    ensures PopsTo(queue, popped)
    decreases |queue|
  {
    if queue == multiset{} {
      popped := [];
    } else {
      var top := HasTop(queue);
      RestIsSmall(queue, top);
      hide SmallSpan, IsTop;
      var rest := CanPop(queue - multiset{top});
      popped := [top] + rest;
      assert popped[1..] == rest;
    }
  }

  /** A queue can be popped until it is empty, and that yields each task once, earliest first and by posting on ties. */
  lemma PopsEarliestFirst(queue: multiset<Task>)
    requires SmallSpan(queue)
    ensures exists popped :: PopsTo(queue, popped)
    ensures forall popped :: PopsTo(queue, popped) ==>
      multiset(popped) == queue && forall i, j :: 0 <= i < j < |popped| ==> Before(popped[i], popped[j])
  {
    var popped := CanPop(queue);
    forall other | PopsTo(queue, other)
      ensures multiset(other) == queue && forall i, j :: 0 <= i < j < |other| ==> Before(other[i], other[j])
    {
      PopsInOrder(queue, other);
    }
  }
}
