/**
 * What the three pointer-analysis solvers (A5, A6 and A8 Solver.java) share:
 * points-to sets kept per pointer, the pointer flow graph as a set of edges,
 * and a first-in first-out work list of (pointer, objects) entries.
 *
 * The solvers keep one invariant about these: along every edge of the pointer
 * flow graph, what the source points to has reached the target or is still
 * owed to it by an entry of the work list. Once the work list is empty, points-to
 * sets therefore flow along every edge.
 */
module PtaCore {

  /** A work-list entry: objects still to be propagated to a pointer. */
  datatype Entry<P, O> = Entry(pointer: P, objs: set<O>)

  /** The points-to set of a pointer; a pointer that was never reached points to nothing. */
  function PtOf<P, O>(pt: map<P, set<O>>, p: P): set<O>
  {
    if p in pt then pt[p] else {}
  }

  /** The objects the work list still owes to p. */
  ghost function Pending<P, O>(wl: seq<Entry<P, O>>, p: P): set<O>
    decreases |wl|
  {
    if wl == [] then {}
    else Pending(wl[..|wl| - 1], p) + (if wl[|wl| - 1].pointer == p then wl[|wl| - 1].objs else {})
  }

  /** What p points to once the work list is drained: its points-to set and what is owed to it. */
  ghost function Covered<P, O>(pt: map<P, set<O>>, wl: seq<Entry<P, O>>, p: P): set<O>
  {
    PtOf(pt, p) + Pending(wl, p)
  }

  /** Points-to sets flow along every edge of the pointer flow graph, up to what is still owed. */
  ghost predicate FlowsAlong<P, O>(pt: map<P, set<O>>, pfg: set<(P, P)>, wl: seq<Entry<P, O>>)
  {
    forall e :: e in pfg ==> PtOf(pt, e.0) <= Covered(pt, wl, e.1)
  }

  /** An object is owed to p exactly when some entry for p carries it. */
  lemma {:induction false} PendingMembers<P, O>(wl: seq<Entry<P, O>>, p: P, o: O)
    ensures o in Pending(wl, p) <==> exists i :: 0 <= i < |wl| && wl[i].pointer == p && o in wl[i].objs
    decreases |wl|
  {
    if wl != [] {
      var n := |wl| - 1;
      PendingMembers(wl[..n], p, o);
      if o in Pending(wl[..n], p) {
        var i :| 0 <= i < n && wl[..n][i].pointer == p && o in wl[..n][i].objs;
        assert wl[i] == wl[..n][i];
      }
      if exists i :: 0 <= i < |wl| && wl[i].pointer == p && o in wl[i].objs {
        var i :| 0 <= i < |wl| && wl[i].pointer == p && o in wl[i].objs;
        if i < n {
          assert wl[..n][i] == wl[i];
        }
      }
    }
  }

  lemma {:induction false} PendingAppend<P, O>(a: seq<Entry<P, O>>, b: seq<Entry<P, O>>, p: P)
    ensures Pending(a + b, p) == Pending(a, p) + Pending(b, p)
    decreases |b|
  {
    if b == [] {
      assert a + b == a;
    } else {
      var n := |b| - 1;
      assert (a + b)[..|a + b| - 1] == a + b[..n];
      PendingAppend(a, b[..n], p);
    }
  }

  /** Taking the head entry off the work list leaves the rest of what is owed. */
  lemma PendingPoll<P, O>(wl: seq<Entry<P, O>>, p: P)
    requires wl != []
    ensures Pending(wl, p) == (if wl[0].pointer == p then wl[0].objs else {}) + Pending(wl[1..], p)
  {
    assert wl == [wl[0]] + wl[1..];
    PendingAppend([wl[0]], wl[1..], p);
    assert [wl[0]][..0] == [];
  }

  /** Appending entries never takes away what is owed. */
  lemma CoveredGrowsOnAppend<P, O>(pt: map<P, set<O>>, wl: seq<Entry<P, O>>, added: seq<Entry<P, O>>)
    ensures forall p :: Covered(pt, wl, p) <= Covered(pt, wl + added, p)
  {
    forall p
      ensures Covered(pt, wl, p) <= Covered(pt, wl + added, p)
    {
      PendingAppend(wl, added, p);
    }
  }

  /** Pointwise growth of the covered sets, from one solver state to a later one. */
  ghost predicate CoveredGrows<P(!new), O>(pt: map<P, set<O>>, wl: seq<Entry<P, O>>, pt': map<P, set<O>>, wl': seq<Entry<P, O>>)
  {
    forall p :: Covered(pt, wl, p) <= Covered(pt', wl', p)
  }

  /** Flow along the edges survives a move to a state that covers more and keeps the points-to sets. */
  lemma FlowsAlongAppend<P, O>(pt: map<P, set<O>>, pfg: set<(P, P)>, wl: seq<Entry<P, O>>, added: seq<Entry<P, O>>)
    requires FlowsAlong(pt, pfg, wl)
    ensures FlowsAlong(pt, pfg, wl + added)
  {
    CoveredGrowsOnAppend(pt, wl, added);
  }

  /** A new edge keeps the invariant when its source's points-to set is owed to its target. */
  lemma FlowsAlongNewEdge<P, O>(pt: map<P, set<O>>, pfg: set<(P, P)>, wl: seq<Entry<P, O>>, s: P, t: P)
    requires FlowsAlong(pt, pfg, wl)
    requires PtOf(pt, s) <= Covered(pt, wl, t)
    ensures FlowsAlong(pt, pfg + {(s, t)}, wl)
  {
  }

  /** Once nothing is owed, every edge's target points to everything its source points to. */
  lemma FlowsAlongAtFixpoint<P, O>(pt: map<P, set<O>>, pfg: set<(P, P)>)
    requires FlowsAlong(pt, pfg, [])
    ensures forall s, t :: (s, t) in pfg ==> PtOf(pt, s) <= PtOf(pt, t)
  {
    forall s, t | (s, t) in pfg
      ensures PtOf(pt, s) <= PtOf(pt, t)
    {
      var none: seq<Entry<P, O>> := [];
      assert Pending(none, t) == {};
    }
  }
  /** Extending the work list at its end lets every pointer's covered set grow. */
  lemma PrefixCoveredGrows<P(!new), O>(pt: map<P, set<O>>, wl: seq<Entry<P, O>>, wl': seq<Entry<P, O>>)
    requires wl <= wl'
    ensures CoveredGrows(pt, wl, pt, wl')
  {
    assert wl' == wl + wl'[|wl|..];
    CoveredGrowsOnAppend(pt, wl, wl'[|wl|..]);
  }

  /** The objects of objs that p does not point to yet. */
  function Delta<P, O>(pt: map<P, set<O>>, p: P, objs: set<O>): (delta: set<O>)
    ensures delta <= objs && delta !! PtOf(pt, p)
    ensures PtOf(pt, p) + delta == PtOf(pt, p) + objs
  {
    objs - PtOf(pt, p)
  }

  /** The successors of p in the pointer flow graph. */
  function Succs<P(!new)>(pfg: set<(P, P)>, p: P): (r: set<P>)
    ensures forall t :: t in r <==> (p, t) in pfg
  {
    set e | e in pfg && e.0 == p :: e.1
  }

  /**
   * The entries propagation queues: the new objects, at every successor,
   * and nothing at all when no object is new.
   */
  ghost predicate QueuedForSuccs<P(!new), O(!new)>(pfg: set<(P, P)>, p: P, delta: set<O>, added: seq<Entry<P, O>>)
  {
    forall e :: e in added <==> delta != {} && e.objs == delta && (p, e.pointer) in pfg
  }

  lemma PendingOfQueued<P(!new), O(!new)>(pfg: set<(P, P)>, p: P, delta: set<O>, added: seq<Entry<P, O>>, t: P)
    requires QueuedForSuccs(pfg, p, delta, added)
    ensures Pending(added, t) == if (p, t) in pfg then delta else {}
  {
    forall o
      ensures o in Pending(added, t) <==> o in (if (p, t) in pfg then delta else {})
    {
      PendingMembers(added, t, o);
      if (p, t) in pfg && o in delta {
        var i :| 0 <= i < |added| && added[i] == Entry(t, delta);
      }
    }
  }

  /**
   * Taking the head entry (p, objs) off the work list, adding objs to the
   * points-to set of p and queueing the new objects at the successors of p
   * covers at least as much as before, and keeps the flow along every edge.
   */
  lemma PropagateKeepsFlow<P(!new), O(!new)>(pt: map<P, set<O>>, pfg: set<(P, P)>, wl: seq<Entry<P, O>>,
                                       p: P, objs: set<O>, added: seq<Entry<P, O>>)
    requires FlowsAlong(pt, pfg, [Entry(p, objs)] + wl)
    requires QueuedForSuccs(pfg, p, Delta(pt, p, objs), added)
    ensures CoveredGrows(pt, [Entry(p, objs)] + wl, pt[p := PtOf(pt, p) + objs], wl + added)
    ensures FlowsAlong(pt[p := PtOf(pt, p) + objs], pfg, wl + added)
  {
    var pt' := pt[p := PtOf(pt, p) + objs];
    forall q
      ensures Covered(pt, [Entry(p, objs)] + wl, q) <= Covered(pt', wl + added, q)
    {
      PendingPoll([Entry(p, objs)] + wl, q);
      assert ([Entry(p, objs)] + wl)[1..] == wl;
      PendingAppend(wl, added, q);
    }
    forall e | e in pfg
      ensures PtOf(pt', e.0) <= Covered(pt', wl + added, e.1)
    {
      assert Covered(pt, [Entry(p, objs)] + wl, e.1) <= Covered(pt', wl + added, e.1);
      if e.0 == p {
        PendingOfQueued(pfg, p, Delta(pt, p, objs), added, e.1);
        PendingAppend(wl, added, e.1);
      }
    }
  }
  /** An entry appended for p covers its objects at p, and takes nothing away anywhere. */
  lemma EnqueueCovers<P(!new), O>(pt: map<P, set<O>>, wl: seq<Entry<P, O>>, p: P, objs: set<O>)
    ensures objs <= Covered(pt, wl + [Entry(p, objs)], p)
    ensures CoveredGrows(pt, wl, pt, wl + [Entry(p, objs)])
  {
    assert (wl + [Entry(p, objs)])[..|wl|] == wl;
    CoveredGrowsOnAppend(pt, wl, [Entry(p, objs)]);
  }

  /**
   * A new edge s -> t whose source points to something queues that set at t;
   * this keeps the flow along every edge, old and new.
   */
  lemma AddEdgeKeepsFlow<P(!new), O>(pt: map<P, set<O>>, pfg: set<(P, P)>, wl: seq<Entry<P, O>>, s: P, t: P)
    requires FlowsAlong(pt, pfg, wl)
    ensures FlowsAlong(pt, pfg + {(s, t)}, wl + (if (s, t) !in pfg && PtOf(pt, s) != {} then [Entry(t, PtOf(pt, s))] else []))
  {
    if (s, t) !in pfg && PtOf(pt, s) != {} {
      EnqueueCovers(pt, wl, t, PtOf(pt, s));
      FlowsAlongAppend(pt, pfg, wl, [Entry(t, PtOf(pt, s))]);
    } else {
      assert wl + [] == wl;
    }
  }

  /**
   * The entries owed along the edges of g' that are not in g, with the
   * points-to sets as they are: the source's set at the target, for every
   * such edge whose source points to something.
   */
  ghost function NewEdgeEntries<P, O>(pt: map<P, set<O>>, g: set<(P, P)>, g': set<(P, P)>): set<Entry<P, O>>
  {
    set e | e in g' && e !in g && PtOf(pt, e.0) != {} :: Entry(e.1, PtOf(pt, e.0))
  }

  /**
   * The entries added when the graph grows from g to g' and the points-to
   * sets stay as they are: what every new edge owes, and nothing else.
   */
  ghost predicate QueuedForNewEdges<P(!new), O(!new)>(pt: map<P, set<O>>, g: set<(P, P)>, g': set<(P, P)>,
                                                          added: seq<Entry<P, O>>)
  {
    forall e :: e in added <==> e in NewEdgeEntries(pt, g, g')
  }

  /** Adding one edge the way addPFGEdge does queues exactly what that edge owes. */
  lemma QueuedForOneEdge<P(!new), O(!new)>(pt: map<P, set<O>>, g: set<(P, P)>, s: P, t: P)
    ensures QueuedForNewEdges(pt, g, g + {(s, t)},
                              if (s, t) !in g && PtOf(pt, s) != {} then [Entry(t, PtOf(pt, s))] else [])
  {
  }

  /** Two rounds of edge additions queue what their edges owe together. */
  lemma {:induction false} QueuedForNewEdgesChain<P(!new), O(!new)>(pt: map<P, set<O>>, g0: set<(P, P)>, g1: set<(P, P)>,
                                                              g2: set<(P, P)>, w0: seq<Entry<P, O>>,
                                                              w1: seq<Entry<P, O>>, w2: seq<Entry<P, O>>)
    requires g0 <= g1 <= g2 && w0 <= w1 <= w2
    requires QueuedForNewEdges(pt, g0, g1, w1[|w0|..]) && QueuedForNewEdges(pt, g1, g2, w2[|w1|..])
    ensures QueuedForNewEdges(pt, g0, g2, w2[|w0|..])
  {
    assert w2[|w0|..] == w1[|w0|..] + w2[|w1|..];
    forall e | e in w2[|w0|..]
      ensures e.objs != {} && exists s :: (s, e.pointer) in g2 && (s, e.pointer) !in g0 && e.objs == PtOf(pt, s)
    {
      if e in w1[|w0|..] {
        var s :| (s, e.pointer) in g1 && (s, e.pointer) !in g0 && e.objs == PtOf(pt, s);
        assert (s, e.pointer) in g2;
      } else {
        assert e in w2[|w1|..];
      }
    }
  }

  /** Extending the work list through a loop: one more edge added the way addPFGEdge does. */
  lemma QueuedForNewEdgesStep<P(!new), O(!new)>(pt: map<P, set<O>>, g0: set<(P, P)>, g: set<(P, P)>,
                                          w0: seq<Entry<P, O>>, w: seq<Entry<P, O>>, w': seq<Entry<P, O>>, s: P, t: P)
    requires g0 <= g && w0 <= w && QueuedForNewEdges(pt, g0, g, w[|w0|..])
    requires w' == w + (if (s, t) !in g && PtOf(pt, s) != {} then [Entry(t, PtOf(pt, s))] else [])
    ensures w0 <= w' && QueuedForNewEdges(pt, g0, g + {(s, t)}, w'[|w0|..])
  {
    assert w'[|w|..] == (if (s, t) !in g && PtOf(pt, s) != {} then [Entry(t, PtOf(pt, s))] else []);
    QueuedForOneEdge(pt, g, s, t);
    QueuedForNewEdgesChain(pt, g0, g, g + {(s, t)}, w0, w, w');
  }

  /** One edge added the way addPFGEdge does, with nothing queued before it. */
  lemma QueuedForAddedEdge<P(!new), O(!new)>(pt: map<P, set<O>>, g: set<(P, P)>, w: seq<Entry<P, O>>,
                                             w': seq<Entry<P, O>>, s: P, t: P)
    requires w' == w + (if (s, t) !in g && PtOf(pt, s) != {} then [Entry(t, PtOf(pt, s))] else [])
    ensures w <= w' && QueuedForNewEdges(pt, g, g + {(s, t)}, w'[|w|..])
  {
    assert w'[|w|..] == (if (s, t) !in g && PtOf(pt, s) != {} then [Entry(t, PtOf(pt, s))] else []);
    QueuedForOneEdge(pt, g, s, t);
  }

  function Min(a: nat, b: nat): nat
  {
    if a <= b then a else b
  }

  /** Set difference shrinks as the subtracted set grows: the measure of the solvers' recursion. */
  lemma DiffShrinks<T>(u: set<T>, a: set<T>, b: set<T>)
    requires a <= b
    ensures |u - b| <= |u - a|
  {
    var d := (u - a) - (u - b);
    assert u - a == (u - b) + d;
    assert (u - b) * d == {};
  }
}
