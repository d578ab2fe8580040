/**
 * Reachability along a successor function: the closure that the work-list
 * traversals of dead-code detection and of CHA call-graph construction compute.
 */
module Reach {

  /** The i-th step of a sequence goes from an element to one of its successors. */
  ghost predicate StepAt<T>(succ: T -> set<T>, p: seq<T>, i: nat)
    requires i + 1 < |p|
  {
    p[i + 1] in succ(p[i])
  }

  /** A non-empty sequence whose every element is a successor of the one before. */
  ghost predicate IsPath<T>(succ: T -> set<T>, p: seq<T>)
  {
    |p| >= 1 && forall i: nat :: i + 1 < |p| ==> StepAt(succ, p, i)
  }

  ghost predicate Reachable<T(!new)>(succ: T -> set<T>, from: T, to: T)
  {
    exists p :: IsPath(succ, p) && p[0] == from && p[|p| - 1] == to
  }

  /** A set is closed when it holds the successors of its members. */
  ghost predicate Closed<T>(succ: T -> set<T>, s: set<T>)
  {
    forall n :: n in s ==> succ(n) <= s
  }

  lemma ReachableRefl<T(!new)>(succ: T -> set<T>, n: T)
    ensures Reachable(succ, n, n)
  {
    assert IsPath(succ, [n]);
  }

  lemma ReachableStep<T(!new)>(succ: T -> set<T>, from: T, mid: T, to: T)
    requires Reachable(succ, from, mid) && to in succ(mid)
    ensures Reachable(succ, from, to)
  {
    var p :| IsPath(succ, p) && p[0] == from && p[|p| - 1] == mid;
    var q := p + [to];
    forall i: nat | i + 1 < |q|
      ensures StepAt(succ, q, i)
    {
      if i + 1 < |p| {
        assert StepAt(succ, p, i);
      }
    }
    assert IsPath(succ, q);
  }

  /** A closed set that holds the start holds everything reachable from it. */
  lemma {:induction false} ClosedContainsReachable<T(!new)>(succ: T -> set<T>, s: set<T>, from: T, to: T)
    requires Closed(succ, s) && from in s
    requires Reachable(succ, from, to)
    ensures to in s
  {
    var p :| IsPath(succ, p) && p[0] == from && p[|p| - 1] == to;
    var i := 0;
    while i < |p| - 1
      invariant 0 <= i <= |p| - 1
      invariant p[i] in s
    {
      assert StepAt(succ, p, i);
      i := i + 1;
    }
  }

  /**
   * The invariant of a work-list traversal from `start`: everything visited or
   * queued is reachable, and every successor of a visited element is visited
   * or queued.
   */
  ghost predicate TraversalInv<T(!new)>(succ: T -> set<T>, start: T, universe: set<T>, visited: set<T>, queue: seq<T>)
  {
    && visited <= universe
    && (forall n :: n in queue ==> n in universe && Reachable(succ, start, n))
    && (forall n :: n in visited ==> Reachable(succ, start, n))
    && (forall n, t :: n in visited && t in succ(n) ==> t in visited || t in queue)
    && (start in visited || start in queue)
  }

  lemma TraversalStart<T(!new)>(succ: T -> set<T>, start: T, universe: set<T>)
    requires start in universe
    ensures TraversalInv(succ, start, universe, {}, [start])
  {
    ReachableRefl(succ, start);
  }

  /** Dropping an element that was visited already keeps the invariant. */
  lemma TraversalSkip<T(!new)>(succ: T -> set<T>, start: T, universe: set<T>, visited: set<T>, queue: seq<T>)
    requires TraversalInv(succ, start, universe, visited, queue)
    requires queue != [] && queue[0] in visited
    ensures TraversalInv(succ, start, universe, visited, queue[1..])
  {
    assert forall n :: n in queue ==> n == queue[0] || n in queue[1..];
  }

  /**
   * Visiting the head of the queue and queueing its successors keeps the
   * invariant, and leaves fewer elements of the universe unvisited.
   */
  lemma TraversalVisit<T(!new)>(succ: T -> set<T>, start: T, universe: set<T>, visited: set<T>, queue: seq<T>,
                                next: seq<T>, visited': set<T>, queue': seq<T>)
    requires TraversalInv(succ, start, universe, visited, queue)
    requires queue != [] && queue[0] !in visited
    requires forall t :: t in next <==> t in succ(queue[0])
    requires forall t :: t in next ==> t in universe
    requires visited' == visited + {queue[0]} && queue' == queue[1..] + next
    ensures TraversalInv(succ, start, universe, visited', queue')
    ensures |universe - visited'| < |universe - visited|
  {
    var x := queue[0];
    assert forall n :: n in queue ==> n == x || n in queue[1..];
    forall t | t in next
      ensures Reachable(succ, start, t)
    {
      ReachableStep(succ, start, x, t);
    }
    assert universe - visited' == (universe - visited) - {x};
  }

  /**
   * A traversal without a visited check may take an element a second time:
   * queueing its successors again keeps the invariant.
   */
  lemma TraversalRevisit<T(!new)>(succ: T -> set<T>, start: T, universe: set<T>, visited: set<T>, queue: seq<T>,
                                  next: seq<T>, queue': seq<T>)
    requires TraversalInv(succ, start, universe, visited, queue)
    requires queue != [] && queue[0] in visited
    requires forall t :: t in next <==> t in succ(queue[0])
    requires forall t :: t in next ==> t in universe
    requires queue' == queue[1..] + next
    ensures TraversalInv(succ, start, universe, visited, queue')
  {
    var x := queue[0];
    assert forall n :: n in queue ==> n == x || n in queue[1..];
    forall t | t in next
      ensures Reachable(succ, start, t)
    {
      ReachableStep(succ, start, x, t);
    }
  }

  /** When the queue runs empty, the visited elements are exactly the reachable ones. */
  lemma TraversalDone<T(!new)>(succ: T -> set<T>, start: T, universe: set<T>, visited: set<T>)
    requires TraversalInv(succ, start, universe, visited, [])
    ensures forall n :: n in visited <==> Reachable(succ, start, n)
  {
    assert Closed(succ, visited);
    forall n | Reachable(succ, start, n)
      ensures n in visited
    {
      ClosedContainsReachable(succ, visited, start, n);
    }
  }
}
