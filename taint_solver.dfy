/**
 * The context-sensitive pointer analysis with taint tracking of
 * A8/Solver.java.
 *
 * It is the analysis of A6/Solver.java plus a taint flow graph (TFG): a
 * multimap from a pointer to (target pointer, type) pairs, kept here as the
 * set of its (source, target, type) entries. When a call edge is new, the
 * taint configuration's transfers of its callee add TFG entries (from an
 * argument to the receiver or the result, from the receiver to the result),
 * and when the callee is a source and the call has a result, a taint object
 * for the call site is queued at the result. Whenever a taint object newly
 * reaches a pointer, a copy re-typed for every TFG entry of that pointer is
 * queued at the entry's target.
 *
 * Contexts are modelled as A8/Solver.java writes them: the arg-to-result
 * entries of a static call target the result variable in the callee's
 * context, and so does the taint object of an instance source call; the
 * taint object of a static source call goes to the result in the caller's
 * context.
 */
module TaintPta {
  import opened Wrappers
  import opened PtaIr
  import opened PtaCore
  import opened CsElements
  import opened Taint
  import Cha

  /** A TFG entry: taint reaching the source pointer reaches the target, re-typed. */
  type TaintEdge = (Pointer, Pointer, JType)

  /** The solver's fields, as one value. */
  datatype State = State(pt: map<Pointer, set<CSObj>>, pfg: set<(Pointer, Pointer)>,
                         workList: seq<Entry<Pointer, CSObj>>, reachable: set<CSMethod>, callEdges: set<CallEdge>,
                         tfg: set<TaintEdge>)

  /** What p points to once the work list is drained. */
  ghost function Cov(st: State, p: Pointer): set<CSObj>
  {
    Covered(st.pt, st.workList, p)
  }

  /**
   * What A8 relies on besides the shapes of A6: an instance call site is
   * listed under its receiver variable only, and is not static.
   */
  ghost predicate ReceiversAgree(prog: Program)
  {
    forall x: Var, site: CallSiteId :: site in prog.invokesOn(x) ==> !prog.invokes(site).isStatic && prog.invokes(site).base == Some(x)
  }

  // ----- Taint flow along the TFG -----

  /** The (target, type) pairs the TFG holds for p: taintFlowGraph.get(p). */
  function TfgSuccs(tfg: set<TaintEdge>, p: Pointer): set<(Pointer, JType)>
  {
    set e | e in tfg && e.0 == p :: (e.1, e.2)
  }

  lemma TfgSuccsMembers(tfg: set<TaintEdge>, p: Pointer)
    ensures forall t, ty :: (t, ty) in TfgSuccs(tfg, p) <==> (p, t, ty) in tfg
  {
    forall t, ty | (p, t, ty) in tfg
      ensures (t, ty) in TfgSuccs(tfg, p)
    {
      var e := (p, t, ty);
      assert e in tfg && e.0 == p;
    }
  }

  /** The taint objects among objs, re-typed to ty. */
  ghost function Retyped(empty: Context, objs: set<CSObj>, ty: JType): set<CSObj>
  {
    set o | o in objs && IsTaint(o) :: GetTaintObj(empty, o.obj.source, ty)
  }

  /** Every taint object at the source of a TFG entry is owed, re-typed, to its target. */
  ghost predicate TaintFlowsAlong(empty: Context, pt: map<Pointer, set<CSObj>>, tfg: set<TaintEdge>,
                                  wl: seq<Entry<Pointer, CSObj>>)
  {
    forall s, t, ty, o :: (s, t, ty) in tfg && o in PtOf(pt, s) && IsTaint(o)
      ==> GetTaintObj(empty, o.obj.source, ty) in Covered(pt, wl, t)
  }

  lemma TaintFlowsAppend(empty: Context, pt: map<Pointer, set<CSObj>>, tfg: set<TaintEdge>,
                         wl: seq<Entry<Pointer, CSObj>>, added: seq<Entry<Pointer, CSObj>>)
    requires TaintFlowsAlong(empty, pt, tfg, wl)
    ensures TaintFlowsAlong(empty, pt, tfg, wl + added)
  {
    CoveredGrowsOnAppend(pt, wl, added);
  }

  /** A new TFG entry keeps the taint flow when the re-typed taint of its source is owed to its target. */
  lemma TaintFlowsNewEdge(empty: Context, pt: map<Pointer, set<CSObj>>, tfg: set<TaintEdge>,
                          wl: seq<Entry<Pointer, CSObj>>, s: Pointer, t: Pointer, ty: JType)
    requires TaintFlowsAlong(empty, pt, tfg, wl)
    requires Retyped(empty, PtOf(pt, s), ty) <= Covered(pt, wl, t)
    ensures TaintFlowsAlong(empty, pt, tfg + {(s, t, ty)}, wl)
  {
    forall s', t', ty', o | (s', t', ty') in tfg + {(s, t, ty)} && o in PtOf(pt, s') && IsTaint(o)
      ensures GetTaintObj(empty, o.obj.source, ty') in Covered(pt, wl, t')
    {
      if (s', t', ty') !in tfg {
        assert GetTaintObj(empty, o.obj.source, ty) in Retyped(empty, PtOf(pt, s), ty);
      }
    }
  }

  /** The entries that queue the taint object of source, re-typed to ty, at t, for each (t, ty) of targets. */
  ghost function RetypedEntries(empty: Context, targets: set<(Pointer, JType)>, source: CallSiteId): set<Entry<Pointer, CSObj>>
  {
    set x | x in targets :: Entry(x.0, {GetTaintObj(empty, source, x.1)})
  }

  /**
   * The entries queued for the new objects delta of p: for every new taint
   * object and every TFG entry of p, its copy re-typed to the entry's type at
   * the entry's target, and nothing else.
   */
  ghost predicate RetypedQueued(empty: Context, tfg: set<TaintEdge>, p: Pointer, delta: set<CSObj>,
                                queued: seq<Entry<Pointer, CSObj>>)
  {
    forall e :: e in queued <==>
      exists o :: o in delta && IsTaint(o) && e in RetypedEntries(empty, TfgSuccs(tfg, p), o.obj.source)
  }

  /** What RetypedQueued makes owed: each new taint object of p, re-typed, at the target of each TFG entry of p. */
  lemma RetypedQueuedPending(empty: Context, tfg: set<TaintEdge>, p: Pointer, delta: set<CSObj>,
                             queued: seq<Entry<Pointer, CSObj>>, o: CSObj, t: Pointer, ty: JType)
    requires RetypedQueued(empty, tfg, p, delta, queued)
    requires o in delta && IsTaint(o) && (p, t, ty) in tfg
    ensures GetTaintObj(empty, o.obj.source, ty) in Pending(queued, t)
  {
    TfgSuccsMembers(tfg, p);
    var e := Entry(t, {GetTaintObj(empty, o.obj.source, ty)});
    assert (t, ty) in TfgSuccs(tfg, p);
    assert e in RetypedEntries(empty, TfgSuccs(tfg, p), o.obj.source);
    assert e in queued;
    PendingMembers(queued, t, GetTaintObj(empty, o.obj.source, ty));
  }

  /** One more object of p: a taint object brings its re-typed entries, any other object none. */
  lemma RetypedQueuedStep(empty: Context, tfg: set<TaintEdge>, p: Pointer, delta: set<CSObj>,
                          queued: seq<Entry<Pointer, CSObj>>, o: CSObj, more: seq<Entry<Pointer, CSObj>>)
    requires RetypedQueued(empty, tfg, p, delta, queued)
    requires forall e :: e in more <==> IsTaint(o) && e in RetypedEntries(empty, TfgSuccs(tfg, p), o.obj.source)
    ensures RetypedQueued(empty, tfg, p, delta + {o}, queued + more)
  {
  }

  /**
   * Taking the head entry (p, objs) off the work list, adding objs to p,
   * queueing re-typed copies of the new taint objects along the TFG and then
   * the new objects at the PFG successors keeps both flows and lets every
   * covered set grow.
   */
  lemma PropagateKeepsTaintFlow(empty: Context, pt: map<Pointer, set<CSObj>>, pfg: set<(Pointer, Pointer)>,
                                tfg: set<TaintEdge>, rest: seq<Entry<Pointer, CSObj>>, p: Pointer, objs: set<CSObj>,
                                retyped: seq<Entry<Pointer, CSObj>>, added: seq<Entry<Pointer, CSObj>>)
    requires FlowsAlong(pt, pfg, [Entry(p, objs)] + rest)
    requires TaintFlowsAlong(empty, pt, tfg, [Entry(p, objs)] + rest)
    requires RetypedQueued(empty, tfg, p, Delta(pt, p, objs), retyped)
    requires QueuedForSuccs(pfg, p, Delta(pt, p, objs), added)
    ensures CoveredGrows(pt, [Entry(p, objs)] + rest, pt[p := PtOf(pt, p) + objs], rest + retyped + added)
    ensures FlowsAlong(pt[p := PtOf(pt, p) + objs], pfg, rest + retyped + added)
    ensures TaintFlowsAlong(empty, pt[p := PtOf(pt, p) + objs], tfg, rest + retyped + added)
  {
    var pt' := pt[p := PtOf(pt, p) + objs];
    var before := [Entry(p, objs)] + rest;
    FlowsAlongAppend(pt, pfg, before, retyped);
    assert before + retyped == [Entry(p, objs)] + (rest + retyped);
    PropagateKeepsFlow(pt, pfg, rest + retyped, p, objs, added);
    CoveredGrowsOnAppend(pt, before, retyped);
    forall s, t, ty, o | (s, t, ty) in tfg && o in PtOf(pt', s) && IsTaint(o)
      ensures GetTaintObj(empty, o.obj.source, ty) in Covered(pt', rest + retyped + added, t)
    {
      if o !in PtOf(pt, s) {
        assert s == p && o in Delta(pt, p, objs);
        RetypedQueuedPending(empty, tfg, p, Delta(pt, p, objs), retyped, o, t, ty);
        PendingAppend(rest, retyped, t);
        PendingAppend(rest + retyped, added, t);
      }
    }
  }

  /** What every TFG entry of tfg' that is not in tfg owes: the re-typed taint of its source, where there is any. */
  ghost function NewTaintEntries(empty: Context, pt: map<Pointer, set<CSObj>>, tfg: set<TaintEdge>,
                                 tfg': set<TaintEdge>): set<Entry<Pointer, CSObj>>
  {
    set e | e in tfg' && e !in tfg && Retyped(empty, PtOf(pt, e.0), e.2) != {} :: Entry(e.1, Retyped(empty, PtOf(pt, e.0), e.2))
  }

  /** The taint object a call at site queues at target when its callee is a source: getTaintObj(site, type). */
  function SourceSeed(config: TaintConfig, empty: Context, site: CallSiteId, callee: Method, target: Pointer)
    : Option<(Pointer, CSObj)>
  {
    var ty := LastSourceType(config.sources, callee);
    if ty.Some? then Some((target, GetTaintObj(empty, site, ty.value))) else None
  }

  /** The entry a seeded taint object makes, if any. */
  function SeedEntries(seed: Option<(Pointer, CSObj)>): set<Entry<Pointer, CSObj>>
  {
    if seed.Some? then {Entry(seed.value.0, {seed.value.1})} else {}
  }

  /**
   * The entries added while the PFG grows from pfg to pfg' and the TFG from
   * tfg to tfg', the points-to sets staying as they are: what every new PFG
   * edge and TFG entry owes, the seeded entries, and nothing else.
   */
  ghost predicate QueuedForNew(empty: Context, pt: map<Pointer, set<CSObj>>, pfg: set<(Pointer, Pointer)>,
                               pfg': set<(Pointer, Pointer)>, tfg: set<TaintEdge>, tfg': set<TaintEdge>,
                               seeds: set<Entry<Pointer, CSObj>>, added: seq<Entry<Pointer, CSObj>>)
  {
    forall e :: e in added <==> e in NewEdgeEntries(pt, pfg, pfg') + NewTaintEntries(empty, pt, tfg, tfg') + seeds
  }

  /** Entries queued for new PFG edges alone. */
  lemma QueuedForPfgOnly(empty: Context, pt: map<Pointer, set<CSObj>>, pfg: set<(Pointer, Pointer)>,
                         pfg': set<(Pointer, Pointer)>, tfg: set<TaintEdge>, added: seq<Entry<Pointer, CSObj>>)
    requires QueuedForNewEdges(pt, pfg, pfg', added)
    ensures QueuedForNew(empty, pt, pfg, pfg', tfg, tfg, {}, added)
  {
    assert NewTaintEntries(empty, pt, tfg, tfg) == {};
  }

  /** Adding one TFG entry the way addTFGEdge does queues exactly what that entry owes. */
  lemma QueuedForTfgEdge(empty: Context, pt: map<Pointer, set<CSObj>>, pfg: set<(Pointer, Pointer)>, tfg: set<TaintEdge>,
                         w: seq<Entry<Pointer, CSObj>>, w': seq<Entry<Pointer, CSObj>>, s: Pointer, t: Pointer, ty: JType)
    requires w' == w + (if (s, t, ty) !in tfg && Retyped(empty, PtOf(pt, s), ty) != {}
                        then [Entry(t, Retyped(empty, PtOf(pt, s), ty))] else [])
    ensures w <= w' && QueuedForNew(empty, pt, pfg, pfg, tfg, tfg + {(s, t, ty)}, {}, w'[|w|..])
  {
    assert w'[|w|..] == (if (s, t, ty) !in tfg && Retyped(empty, PtOf(pt, s), ty) != {}
                         then [Entry(t, Retyped(empty, PtOf(pt, s), ty))] else []);
    assert NewEdgeEntries(pt, pfg, pfg) == {};
    if (s, t, ty) !in tfg && Retyped(empty, PtOf(pt, s), ty) != {} {
      var e := (s, t, ty);
      assert Entry(t, Retyped(empty, PtOf(pt, s), ty)) in NewTaintEntries(empty, pt, tfg, tfg + {(s, t, ty)});
    }
  }

  /** Queueing the seeded entry, if any. */
  lemma QueuedForSeed(empty: Context, pt: map<Pointer, set<CSObj>>, pfg: set<(Pointer, Pointer)>, tfg: set<TaintEdge>,
                      w: seq<Entry<Pointer, CSObj>>, w': seq<Entry<Pointer, CSObj>>, seed: Option<(Pointer, CSObj)>)
    requires w' == w + (if seed.Some? then [Entry(seed.value.0, {seed.value.1})] else [])
    ensures w <= w' && QueuedForNew(empty, pt, pfg, pfg, tfg, tfg, SeedEntries(seed), w'[|w|..])
  {
    assert NewEdgeEntries(pt, pfg, pfg) == {};
    assert NewTaintEntries(empty, pt, tfg, tfg) == {};
    assert w'[|w|..] == (if seed.Some? then [Entry(seed.value.0, {seed.value.1})] else []);
  }

  /** Nothing added, nothing queued. */
  lemma QueuedForNothing(empty: Context, pt: map<Pointer, set<CSObj>>, pfg: set<(Pointer, Pointer)>, tfg: set<TaintEdge>,
                         w: seq<Entry<Pointer, CSObj>>)
    ensures QueuedForNew(empty, pt, pfg, pfg, tfg, tfg, {}, w[|w|..])
  {
    assert NewEdgeEntries(pt, pfg, pfg) == {};
    assert NewTaintEntries(empty, pt, tfg, tfg) == {};
  }

  /** Two rounds of additions queue what their edges owe and what they seed, together. */
  lemma {:induction false} QueuedForNewChain(empty: Context, pt: map<Pointer, set<CSObj>>,
      pfg0: set<(Pointer, Pointer)>, pfg1: set<(Pointer, Pointer)>, pfg2: set<(Pointer, Pointer)>,
      tfg0: set<TaintEdge>, tfg1: set<TaintEdge>, tfg2: set<TaintEdge>,
      seeds1: set<Entry<Pointer, CSObj>>, seeds2: set<Entry<Pointer, CSObj>>,
      w0: seq<Entry<Pointer, CSObj>>, w1: seq<Entry<Pointer, CSObj>>, w2: seq<Entry<Pointer, CSObj>>)
    requires pfg0 <= pfg1 <= pfg2 && tfg0 <= tfg1 <= tfg2 && w0 <= w1 <= w2
    requires QueuedForNew(empty, pt, pfg0, pfg1, tfg0, tfg1, seeds1, w1[|w0|..])
    requires QueuedForNew(empty, pt, pfg1, pfg2, tfg1, tfg2, seeds2, w2[|w1|..])
    ensures QueuedForNew(empty, pt, pfg0, pfg2, tfg0, tfg2, seeds1 + seeds2, w2[|w0|..])
  {
    assert w2[|w0|..] == w1[|w0|..] + w2[|w1|..];
    assert NewEdgeEntries(pt, pfg0, pfg2) == NewEdgeEntries(pt, pfg0, pfg1) + NewEdgeEntries(pt, pfg1, pfg2);
    assert NewTaintEntries(empty, pt, tfg0, tfg2)
        == NewTaintEntries(empty, pt, tfg0, tfg1) + NewTaintEntries(empty, pt, tfg1, tfg2);
  }

  // ----- The taint entries and taint object a call edge brings -----

  /**
   * The arg-to-result entry of argument i of a static call, to the result,
   * if any, in the callee's context c'.
   */
  function StaticArgEntry(config: TaintConfig, c: Context, args: seq<Var>, callee: Method, c': Context,
                          result: Option<Var>, i: nat): set<TaintEdge>
    requires i < |args|
  {
    var a2r := FirstTransferType(config.transfers, callee, i, RESULT);
    if result.Some? && a2r.Some? then {(CSVar(c, args[i]), CSVar(c', result.value), a2r.value)} else {}
  }

  /** The arg-to-result entries of the first n arguments of a static call. */
  function StaticArgTaint(config: TaintConfig, c: Context, args: seq<Var>, callee: Method, c': Context,
                          result: Option<Var>, n: nat): set<TaintEdge>
    requires n <= |args|
  {
    if n == 0 then {}
    else StaticArgTaint(config, c, args, callee, c', result, n - 1) + StaticArgEntry(config, c, args, callee, c', result, n - 1)
  }

  lemma {:induction false} StaticArgTaintHas(config: TaintConfig, c: Context, args: seq<Var>, callee: Method, c': Context,
                                             result: Option<Var>, n: nat, i: nat)
    requires n <= |args| && i < n
    ensures StaticArgEntry(config, c, args, callee, c', result, i) <= StaticArgTaint(config, c, args, callee, c', result, n)
    decreases n
  {
    if i < n - 1 {
      StaticArgTaintHas(config, c, args, callee, c', result, n - 1, i);
    }
  }

  /**
   * The arg-to-base entry of argument i of an instance call, to the receiver
   * pointer recv, and its arg-to-result entry, to the result, if any, in the
   * caller's context c.
   */
  function InstanceArgEntry(config: TaintConfig, c: Context, args: seq<Var>, callee: Method, recv: Pointer,
                            result: Option<Var>, i: nat): set<TaintEdge>
    requires i < |args|
  {
    var a2b := FirstTransferType(config.transfers, callee, i, BASE);
    var a2r := FirstTransferType(config.transfers, callee, i, RESULT);
    (if a2b.Some? then {(CSVar(c, args[i]), recv, a2b.value)} else {})
      + (if result.Some? && a2r.Some? then {(CSVar(c, args[i]), CSVar(c, result.value), a2r.value)} else {})
  }

  /** The arg-to-base and arg-to-result entries of the first n arguments of an instance call. */
  function InstanceArgTaint(config: TaintConfig, c: Context, args: seq<Var>, callee: Method, recv: Pointer,
                            result: Option<Var>, n: nat): set<TaintEdge>
    requires n <= |args|
  {
    if n == 0 then {}
    else InstanceArgTaint(config, c, args, callee, recv, result, n - 1) + InstanceArgEntry(config, c, args, callee, recv, result, n - 1)
  }

  lemma {:induction false} InstanceArgTaintHas(config: TaintConfig, c: Context, args: seq<Var>, callee: Method,
                                               recv: Pointer, result: Option<Var>, n: nat, i: nat)
    requires n <= |args| && i < n
    ensures InstanceArgEntry(config, c, args, callee, recv, result, i) <= InstanceArgTaint(config, c, args, callee, recv, result, n)
    decreases n
  {
    if i < n - 1 {
      InstanceArgTaintHas(config, c, args, callee, recv, result, n - 1, i);
    }
  }

  /** The TFG entries a new call edge adds. */
  function TaintEdgesOf(prog: Program, config: TaintConfig, e: CallEdge): set<TaintEdge>
  {
    var inv := prog.invokes(e.callSite.site);
    var callee := e.callee.meth;
    var caller := e.callSite.ctx;
    var n := Min(|inv.args|, |prog.params(callee)|);
    if inv.isStatic then
      StaticArgTaint(config, caller, inv.args, callee, e.callee.ctx, inv.result, n)
    else if inv.base.Some? then
      var recv := CSVar(caller, inv.base.value);
      var b2r := FirstTransferType(config.transfers, callee, BASE, RESULT);
      InstanceArgTaint(config, caller, inv.args, callee, recv, inv.result, n)
        + (if inv.result.Some? && b2r.Some? then {(recv, CSVar(caller, inv.result.value), b2r.value)} else {})
    else {}
  }

  /** The pointer and the taint object a new call edge to a source queues, if any. */
  function SeedOf(prog: Program, config: TaintConfig, empty: Context, e: CallEdge): Option<(Pointer, CSObj)>
  {
    var inv := prog.invokes(e.callSite.site);
    var ty := LastSourceType(config.sources, e.callee.meth);
    if inv.result.Some? && ty.Some? then
      var target := if inv.isStatic then CSVar(e.callSite.ctx, inv.result.value) else CSVar(e.callee.ctx, inv.result.value);
      Some((target, GetTaintObj(empty, e.callSite.site, ty.value)))
    else None
  }

  // ----- What has been done for a statement, a call edge and an object -----

  ghost predicate StmtDone(prog: Program, sel: Selector, st: State, csm: CSMethod, s: Stmt)
  {
    var c := csm.ctx;
    match s
    case New(x, o) => CSObj(sel.heapContext(csm, o), o) in Cov(st, CSVar(c, x))
    case Copy(x, y) => (CSVar(c, y), CSVar(c, x)) in st.pfg
    case StoreField(isStatic, f, y) => isStatic ==> (CSVar(c, y), StaticField(f)) in st.pfg
    case LoadField(isStatic, x, f) => isStatic ==> (StaticField(f), CSVar(c, x)) in st.pfg
    case Call(site) => prog.invokes(site).isStatic ==> StaticEdge(prog, sel, csm, site) in st.callEdges
    case Other => true
  }

  ghost predicate MethodDone(prog: Program, sel: Selector, st: State, csm: CSMethod)
  {
    forall s :: s in prog.body(csm.meth) ==> StmtDone(prog, sel, st, csm, s)
  }

  /** A call edge's callee is reachable, and its PFG edges, its TFG entries and its taint object are in place. */
  ghost predicate EdgeWired(prog: Program, config: TaintConfig, sel: Selector, st: State, e: CallEdge)
  {
    var seed := SeedOf(prog, config, sel.empty, e);
    && e.callee in st.reachable
    && |prog.params(e.callee.meth)| == |prog.invokes(e.callSite.site).args|
    && CallFlow(prog, e) <= st.pfg
    && TaintEdgesOf(prog, config, e) <= st.tfg
    && (seed.Some? ==> seed.value.1 in Cov(st, seed.value.0))
  }

  ghost predicate CallWired(prog: Program, sel: Selector, st: State, c: Context, site: CallSiteId, o: CSObj)
  {
    var e := InstanceEdge(prog, sel, c, site, o);
    && e in st.callEdges
    && o in Cov(st, CSVar(e.callee.ctx, prog.thisVar(e.callee.meth)))
  }

  ghost predicate ObjWired(prog: Program, sel: Selector, st: State, c: Context, x: Var, o: CSObj)
  {
    && FieldFlow(prog, c, x, o) <= st.pfg
    && forall site :: site in prog.invokesOn(x) ==> CallWired(prog, sel, st, c, site, o)
  }

  /** The methods, call edges and (variable, object) pairs whose wiring is under way. */
  datatype Unfinished = Unfinished(methods: set<CSMethod>, edges: set<CallEdge>, objs: set<(Pointer, CSObj)>)

  const NothingUnfinished := Unfinished({}, {}, {})

  /**
   * The solver's invariant: that of the A6 solver, with taint flowing along
   * the TFG and every call edge's taint wiring in place, except for the work
   * under way.
   */
  ghost predicate Inv(prog: Program, config: TaintConfig, sel: Selector, st: State, u: Unfinished)
  {
    && st.reachable <= Universe(prog, sel)
    && FlowsAlong(st.pt, st.pfg, st.workList)
    && TaintFlowsAlong(sel.empty, st.pt, st.tfg, st.workList)
    && (forall m :: m in st.reachable && m !in u.methods ==> MethodDone(prog, sel, st, m))
    && (forall e :: e in st.callEdges && e !in u.edges ==> EdgeWired(prog, config, sel, st, e))
    && (forall c: Context, x: Var, o: CSObj :: o in PtOf(st.pt, CSVar(c, x)) && (CSVar(c, x), o) !in u.objs
          ==> ObjWired(prog, sel, st, c, x, o))
  }

  /** b has every edge, method, call edge and TFG entry of a, and covers at least as much. */
  ghost predicate Grows(a: State, b: State)
  {
    && a.pfg <= b.pfg && a.reachable <= b.reachable && a.callEdges <= b.callEdges && a.tfg <= b.tfg
    && CoveredGrows(a.pt, a.workList, b.pt, b.workList)
  }

  /** b is a after adding edges, methods, call edges and TFG entries and appending to the work list. */
  ghost predicate Extends(a: State, b: State)
  {
    && a.pfg <= b.pfg && a.reachable <= b.reachable && a.callEdges <= b.callEdges && a.tfg <= b.tfg
    && b.pt == a.pt && a.workList <= b.workList
  }

  lemma ExtendsGrows(a: State, b: State)
    requires Extends(a, b)
    ensures Grows(a, b)
  {
    PrefixCoveredGrows(a.pt, a.workList, b.workList);
  }

  lemma ExtendsTrans(a: State, b: State, c: State)
    requires Extends(a, b) && Extends(b, c)
    ensures Extends(a, c)
  {
  }

  lemma StmtDoneGrows(prog: Program, sel: Selector, a: State, b: State, csm: CSMethod, s: Stmt)
    requires Grows(a, b) && StmtDone(prog, sel, a, csm, s)
    ensures StmtDone(prog, sel, b, csm, s)
  {
  }

  /** The first n statements of stmts are done. */
  ghost predicate PrefixDone(prog: Program, sel: Selector, st: State, csm: CSMethod, stmts: seq<Stmt>, n: nat)
    requires n <= |stmts|
  {
    n == 0 || (PrefixDone(prog, sel, st, csm, stmts, n - 1) && StmtDone(prog, sel, st, csm, stmts[n - 1]))
  }

  lemma {:induction false} PrefixDoneGrows(prog: Program, sel: Selector, a: State, b: State, csm: CSMethod,
                                           stmts: seq<Stmt>, n: nat)
    requires n <= |stmts| && Grows(a, b) && PrefixDone(prog, sel, a, csm, stmts, n)
    ensures PrefixDone(prog, sel, b, csm, stmts, n)
    decreases n
  {
    if n > 0 {
      PrefixDoneGrows(prog, sel, a, b, csm, stmts, n - 1);
      StmtDoneGrows(prog, sel, a, b, csm, stmts[n - 1]);
    }
  }

  lemma {:induction false} PrefixDoneAll(prog: Program, sel: Selector, st: State, csm: CSMethod, stmts: seq<Stmt>, n: nat)
    requires n <= |stmts| && PrefixDone(prog, sel, st, csm, stmts, n)
    ensures forall s :: s in stmts[..n] ==> StmtDone(prog, sel, st, csm, s)
    decreases n
  {
    if n > 0 {
      PrefixDoneAll(prog, sel, st, csm, stmts, n - 1);
      assert stmts[..n] == stmts[..n - 1] + [stmts[n - 1]];
    }
  }

  lemma ObjWiredGrows(prog: Program, sel: Selector, a: State, b: State, c: Context, x: Var, o: CSObj)
    requires Grows(a, b) && ObjWired(prog, sel, a, c, x, o)
    ensures ObjWired(prog, sel, b, c, x, o)
  {
    forall site | site in prog.invokesOn(x)
      ensures CallWired(prog, sel, b, c, site, o)
    {
      assert CallWired(prog, sel, a, c, site, o);
    }
  }

  lemma EdgeWiredGrows(prog: Program, config: TaintConfig, sel: Selector, a: State, b: State, e: CallEdge)
    requires Grows(a, b) && EdgeWired(prog, config, sel, a, e)
    ensures EdgeWired(prog, config, sel, b, e)
  {
  }

  /**
   * Growth keeps the invariant, given that both flows hold in the new state
   * and whatever it adds is listed as unfinished.
   */
  lemma InvGrows(prog: Program, config: TaintConfig, sel: Selector, a: State, b: State, u: Unfinished)
    requires Inv(prog, config, sel, a, u) && Grows(a, b)
    requires b.reachable <= Universe(prog, sel) && FlowsAlong(b.pt, b.pfg, b.workList)
    requires TaintFlowsAlong(sel.empty, b.pt, b.tfg, b.workList)
    requires b.reachable - a.reachable <= u.methods && b.callEdges - a.callEdges <= u.edges
    requires forall c: Context, x: Var, o: CSObj :: o in PtOf(b.pt, CSVar(c, x)) && (CSVar(c, x), o) !in u.objs
               ==> o in PtOf(a.pt, CSVar(c, x))
    ensures Inv(prog, config, sel, b, u)
  {
    forall m | m in b.reachable && m !in u.methods
      ensures MethodDone(prog, sel, b, m)
    {
      forall s | s in prog.body(m.meth)
        ensures StmtDone(prog, sel, b, m, s)
      {
        StmtDoneGrows(prog, sel, a, b, m, s);
      }
    }
    forall e | e in b.callEdges && e !in u.edges
      ensures EdgeWired(prog, config, sel, b, e)
    {
      EdgeWiredGrows(prog, config, sel, a, b, e);
    }
    forall c: Context, x: Var, o: CSObj | o in PtOf(b.pt, CSVar(c, x)) && (CSVar(c, x), o) !in u.objs
      ensures ObjWired(prog, sel, b, c, x, o)
    {
      ObjWiredGrows(prog, sel, a, b, c, x, o);
    }
  }

  /** Work under way that has been finished can be taken off the unfinished list. */
  lemma InvRelease(prog: Program, config: TaintConfig, sel: Selector, st: State, u: Unfinished, u': Unfinished)
    requires Inv(prog, config, sel, st, u)
    requires forall m :: m in u.methods && m !in u'.methods && m in st.reachable ==> MethodDone(prog, sel, st, m)
    requires forall e :: e in u.edges && e !in u'.edges && e in st.callEdges ==> EdgeWired(prog, config, sel, st, e)
    requires forall c: Context, x: Var, o: CSObj ::
               (CSVar(c, x), o) in u.objs && (CSVar(c, x), o) !in u'.objs && o in PtOf(st.pt, CSVar(c, x))
               ==> ObjWired(prog, sel, st, c, x, o)
    ensures Inv(prog, config, sel, st, u')
  {
  }

  /** A step that only adds PFG and TFG entries and work-list entries, keeping both flows, keeps the invariant. */
  lemma InvStep(prog: Program, config: TaintConfig, sel: Selector, a: State, b: State, u: Unfinished)
    requires Inv(prog, config, sel, a, u) && Extends(a, b)
    requires FlowsAlong(b.pt, b.pfg, b.workList) && TaintFlowsAlong(sel.empty, b.pt, b.tfg, b.workList)
    requires b.reachable == a.reachable && b.callEdges == a.callEdges
    ensures Inv(prog, config, sel, b, u)
  {
    ExtendsGrows(a, b);
    InvGrows(prog, config, sel, a, b, u);
  }

  /** Marking m reachable keeps the invariant while m's statements are under way, and shrinks the pairs left. */
  lemma MarkReachable(prog: Program, config: TaintConfig, sel: Selector, a: State, m: CSMethod, u: Unfinished)
    requires Inv(prog, config, sel, a, u) && m in Universe(prog, sel) && m !in a.reachable
    ensures Inv(prog, config, sel, a.(reachable := a.reachable + {m}), u.(methods := u.methods + {m}))
    ensures Extends(a, a.(reachable := a.reachable + {m}))
    ensures |Universe(prog, sel) - (a.reachable + {m})| < |Universe(prog, sel) - a.reachable|
  {
    var b := a.(reachable := a.reachable + {m});
    assert Universe(prog, sel) - b.reachable == (Universe(prog, sel) - a.reachable) - {m};
    ExtendsGrows(a, b);
    InvGrows(prog, config, sel, a, b, u.(methods := u.methods + {m}));
  }

  /** Once every statement of m is done, m is no longer under way. */
  lemma FinishReachable(prog: Program, config: TaintConfig, sel: Selector, st: State, m: CSMethod, u: Unfinished)
    requires Inv(prog, config, sel, st, u.(methods := u.methods + {m}))
    requires PrefixDone(prog, sel, st, m, prog.body(m.meth), |prog.body(m.meth)|)
    ensures Inv(prog, config, sel, st, u)
  {
    var stmts := prog.body(m.meth);
    PrefixDoneAll(prog, sel, st, m, stmts, |stmts|);
    assert stmts[..|stmts|] == stmts;
    InvRelease(prog, config, sel, st, u.(methods := u.methods + {m}), u);
  }

  // ----- The analysis rules, stated on the points-to sets and the TFG alone -----

  ghost function PtsOf(pt: map<Pointer, set<CSObj>>, c: Context, v: Var): set<CSObj>
  {
    PtOf(pt, CSVar(c, v))
  }

  ghost predicate StmtRule(prog: Program, sel: Selector, pt: map<Pointer, set<CSObj>>, callEdges: set<CallEdge>,
                           csm: CSMethod, s: Stmt)
  {
    var c := csm.ctx;
    match s
    case New(x, o) => CSObj(sel.heapContext(csm, o), o) in PtsOf(pt, c, x)
    case Copy(x, y) => PtsOf(pt, c, y) <= PtsOf(pt, c, x)
    case StoreField(isStatic, f, y) => isStatic ==> PtsOf(pt, c, y) <= PtOf(pt, StaticField(f))
    case LoadField(isStatic, x, f) => isStatic ==> PtOf(pt, StaticField(f)) <= PtsOf(pt, c, x)
    case Call(site) => prog.invokes(site).isStatic ==> StaticEdge(prog, sel, csm, site) in callEdges
    case Other => true
  }

  /**
   * Along a call edge, arguments flow to parameters and return variables to
   * the result; the edge's TFG entries are in the TFG, and a source call's
   * taint object is in the points-to set it was queued at.
   */
  ghost predicate EdgeRule(prog: Program, config: TaintConfig, empty: Context, pt: map<Pointer, set<CSObj>>,
                           reachable: set<CSMethod>, tfg: set<TaintEdge>, e: CallEdge)
  {
    var inv := prog.invokes(e.callSite.site);
    var ps := prog.params(e.callee.meth);
    var caller, callee := e.callSite.ctx, e.callee.ctx;
    var seed := SeedOf(prog, config, empty, e);
    && e.callee in reachable
    && |ps| == |inv.args|
    && (forall j :: 0 <= j < |ps| ==> PtsOf(pt, caller, inv.args[j]) <= PtsOf(pt, callee, ps[j]))
    && (inv.result.Some? ==>
          forall r :: r in prog.returnVars(e.callee.meth) ==> PtsOf(pt, callee, r) <= PtsOf(pt, caller, inv.result.value))
    && TaintEdgesOf(prog, config, e) <= tfg
    && (seed.Some? ==> seed.value.1 in PtOf(pt, seed.value.0))
  }

  ghost predicate ObjRule(prog: Program, sel: Selector, pt: map<Pointer, set<CSObj>>, callEdges: set<CallEdge>,
                          c: Context, x: Var, o: CSObj)
  {
    && (forall s :: s in prog.storeFields(x) ==> PtsOf(pt, c, s.rhs) <= PtOf(pt, InstanceField(o, s.field)))
    && (forall l :: l in prog.loadFields(x) ==> PtOf(pt, InstanceField(o, l.field)) <= PtsOf(pt, c, l.lhs))
    && (forall y :: y in prog.storeArrays(x) ==> PtsOf(pt, c, y) <= PtOf(pt, ArrayIndex(o)))
    && (forall y :: y in prog.loadArrays(x) ==> PtOf(pt, ArrayIndex(o)) <= PtsOf(pt, c, y))
    && (forall site :: site in prog.invokesOn(x) ==>
          var e := InstanceEdge(prog, sel, c, site, o);
          e in callEdges && o in PtsOf(pt, e.callee.ctx, prog.thisVar(e.callee.meth)))
  }

  /** Taint flows along every TFG entry, re-typed. */
  ghost predicate TaintRule(empty: Context, pt: map<Pointer, set<CSObj>>, tfg: set<TaintEdge>)
  {
    forall s, t, ty, o :: (s, t, ty) in tfg && o in PtOf(pt, s) && IsTaint(o)
      ==> GetTaintObj(empty, o.obj.source, ty) in PtOf(pt, t)
  }

  /**
   * Points-to sets, a call graph and a TFG closed under every rule of the
   * analysis, from the entry method in the empty context.
   */
  ghost predicate IsSolution(prog: Program, config: TaintConfig, sel: Selector, entry: Method,
                             pt: map<Pointer, set<CSObj>>, reachable: set<CSMethod>, callEdges: set<CallEdge>,
                             tfg: set<TaintEdge>)
  {
    && CSMethod(sel.empty, entry) in reachable
    && (forall m, s :: m in reachable && s in prog.body(m.meth) ==> StmtRule(prog, sel, pt, callEdges, m, s))
    && (forall e :: e in callEdges ==> EdgeRule(prog, config, sel.empty, pt, reachable, tfg, e))
    && (forall c, x, o :: o in PtsOf(pt, c, x) ==> ObjRule(prog, sel, pt, callEdges, c, x, o))
    && TaintRule(sel.empty, pt, tfg)
  }

  /**
   * What a solution means for the taint configuration: along every call
   * edge, taint at an argument with a transfer reaches, re-typed, the
   * receiver or the result, taint at the receiver reaches the result, and a
   * source call's result holds its taint object.
   */
  lemma SolutionTransfersTaint(prog: Program, config: TaintConfig, sel: Selector, entry: Method,
                               pt: map<Pointer, set<CSObj>>, reachable: set<CSMethod>, callEdges: set<CallEdge>,
                               tfg: set<TaintEdge>, e: CallEdge, i: nat, o: CSObj)
    requires IsSolution(prog, config, sel, entry, pt, reachable, callEdges, tfg) && e in callEdges
    requires IsTaint(o)
    ensures var inv := prog.invokes(e.callSite.site);
            var a2r := FirstTransferType(config.transfers, e.callee.meth, i, RESULT);
            inv.isStatic && inv.result.Some? && i < |inv.args| && a2r.Some? && o in PtsOf(pt, e.callSite.ctx, inv.args[i])
            ==> GetTaintObj(sel.empty, o.obj.source, a2r.value) in PtsOf(pt, e.callee.ctx, inv.result.value)
    ensures var inv := prog.invokes(e.callSite.site);
            var a2r := FirstTransferType(config.transfers, e.callee.meth, i, RESULT);
            !inv.isStatic && inv.result.Some? && inv.base.Some? && i < |inv.args| && a2r.Some?
            && o in PtsOf(pt, e.callSite.ctx, inv.args[i])
            ==> GetTaintObj(sel.empty, o.obj.source, a2r.value) in PtsOf(pt, e.callSite.ctx, inv.result.value)
    ensures var inv := prog.invokes(e.callSite.site);
            var a2b := FirstTransferType(config.transfers, e.callee.meth, i, BASE);
            !inv.isStatic && inv.base.Some? && i < |inv.args| && a2b.Some? && o in PtsOf(pt, e.callSite.ctx, inv.args[i])
            ==> GetTaintObj(sel.empty, o.obj.source, a2b.value) in PtsOf(pt, e.callSite.ctx, inv.base.value)
    ensures var inv := prog.invokes(e.callSite.site);
            var b2r := FirstTransferType(config.transfers, e.callee.meth, BASE, RESULT);
            !inv.isStatic && inv.result.Some? && inv.base.Some? && b2r.Some? && o in PtsOf(pt, e.callSite.ctx, inv.base.value)
            ==> GetTaintObj(sel.empty, o.obj.source, b2r.value) in PtsOf(pt, e.callSite.ctx, inv.result.value)
    ensures var inv := prog.invokes(e.callSite.site);
            var ty := LastSourceType(config.sources, e.callee.meth);
            inv.result.Some? && ty.Some?
            ==> GetTaintObj(sel.empty, e.callSite.site, ty.value)
                  in PtsOf(pt, if inv.isStatic then e.callSite.ctx else e.callee.ctx, inv.result.value)
  {
    var inv := prog.invokes(e.callSite.site);
    var callee := e.callee.meth;
    var caller := e.callSite.ctx;
    assert EdgeRule(prog, config, sel.empty, pt, reachable, tfg, e);
    var n := Min(|inv.args|, |prog.params(callee)|);
    if i < |inv.args| {
      if inv.isStatic && inv.result.Some? && FirstTransferType(config.transfers, callee, i, RESULT).Some? {
        StaticArgTaintHas(config, caller, inv.args, callee, e.callee.ctx, inv.result, n, i);
      }
      if !inv.isStatic && inv.base.Some? {
        InstanceArgTaintHas(config, caller, inv.args, callee, CSVar(caller, inv.base.value), inv.result, n, i);
      }
    }
  }

  lemma StmtRuleAtFixpoint(prog: Program, sel: Selector, st: State, csm: CSMethod, s: Stmt)
    requires StmtDone(prog, sel, st, csm, s) && FlowsAlong(st.pt, st.pfg, []) && st.workList == []
    ensures StmtRule(prog, sel, st.pt, st.callEdges, csm, s)
  {
    var none: seq<Entry<Pointer, CSObj>> := [];
    assert forall p :: Pending(none, p) == {};
    FlowsAlongAtFixpoint(st.pt, st.pfg);
  }

  lemma EdgeRuleAtFixpoint(prog: Program, config: TaintConfig, sel: Selector, st: State, e: CallEdge)
    requires EdgeWired(prog, config, sel, st, e) && FlowsAlong(st.pt, st.pfg, []) && st.workList == []
    ensures EdgeRule(prog, config, sel.empty, st.pt, st.reachable, st.tfg, e)
  {
    var none: seq<Entry<Pointer, CSObj>> := [];
    assert forall p :: Pending(none, p) == {};
    FlowsAlongAtFixpoint(st.pt, st.pfg);
    var inv := prog.invokes(e.callSite.site);
    var ps := prog.params(e.callee.meth);
    var caller, callee := e.callSite.ctx, e.callee.ctx;
    forall j | 0 <= j < |ps|
      ensures PtsOf(st.pt, caller, inv.args[j]) <= PtsOf(st.pt, callee, ps[j])
    {
      ArgEdgesMembers(caller, inv.args, callee, ps, Min(|inv.args|, |ps|), (CSVar(caller, inv.args[j]), CSVar(callee, ps[j])));
      assert (CSVar(caller, inv.args[j]), CSVar(callee, ps[j])) in CallFlow(prog, e);
    }
    if inv.result.Some? {
      var rets := prog.returnVars(e.callee.meth);
      var r := inv.result.value;
      forall ret | ret in rets
        ensures PtsOf(st.pt, callee, ret) <= PtsOf(st.pt, caller, r)
      {
        var j :| 0 <= j < |rets| && rets[j] == ret;
        RetEdgesMembers(callee, rets, caller, r, |rets|, (CSVar(callee, rets[j]), CSVar(caller, r)));
        assert (CSVar(callee, rets[j]), CSVar(caller, r)) in CallFlow(prog, e);
      }
    }
  }

  lemma ObjRuleAtFixpoint(prog: Program, sel: Selector, st: State, c: Context, x: Var, o: CSObj)
    requires ObjWired(prog, sel, st, c, x, o) && FlowsAlong(st.pt, st.pfg, []) && st.workList == []
    ensures ObjRule(prog, sel, st.pt, st.callEdges, c, x, o)
  {
    var none: seq<Entry<Pointer, CSObj>> := [];
    assert forall p :: Pending(none, p) == {};
    FlowsAlongAtFixpoint(st.pt, st.pfg);
    var stores, loads := prog.storeFields(x), prog.loadFields(x);
    var arrayStores, arrayLoads := prog.storeArrays(x), prog.loadArrays(x);
    forall s | s in stores
      ensures PtsOf(st.pt, c, s.rhs) <= PtOf(st.pt, InstanceField(o, s.field))
    {
      StoreEdgesMembers(c, stores, o, |stores|, (CSVar(c, s.rhs), InstanceField(o, s.field)));
      assert (CSVar(c, s.rhs), InstanceField(o, s.field)) in FieldFlow(prog, c, x, o);
    }
    forall l | l in loads
      ensures PtOf(st.pt, InstanceField(o, l.field)) <= PtsOf(st.pt, c, l.lhs)
    {
      LoadEdgesMembers(c, loads, o, |loads|, (InstanceField(o, l.field), CSVar(c, l.lhs)));
      assert (InstanceField(o, l.field), CSVar(c, l.lhs)) in FieldFlow(prog, c, x, o);
    }
    forall y | y in arrayStores
      ensures PtsOf(st.pt, c, y) <= PtOf(st.pt, ArrayIndex(o))
    {
      ArrayStoreEdgesMembers(c, arrayStores, o, |arrayStores|, (CSVar(c, y), ArrayIndex(o)));
      assert (CSVar(c, y), ArrayIndex(o)) in FieldFlow(prog, c, x, o);
    }
    forall y | y in arrayLoads
      ensures PtOf(st.pt, ArrayIndex(o)) <= PtsOf(st.pt, c, y)
    {
      ArrayLoadEdgesMembers(c, arrayLoads, o, |arrayLoads|, (ArrayIndex(o), CSVar(c, y)));
      assert (ArrayIndex(o), CSVar(c, y)) in FieldFlow(prog, c, x, o);
    }
    forall site | site in prog.invokesOn(x)
      ensures var e := InstanceEdge(prog, sel, c, site, o);
              o in PtsOf(st.pt, e.callee.ctx, prog.thisVar(e.callee.meth))
    {
      assert CallWired(prog, sel, st, c, site, o);
    }
  }

  /**
   * The solver's fixpoint: with nothing unfinished and nothing left on the
   * work list, the points-to sets, the call graph and the TFG solve the rules.
   */
  lemma FixpointIsSolution(prog: Program, config: TaintConfig, sel: Selector, st: State, entry: Method)
    requires Inv(prog, config, sel, st, NothingUnfinished) && st.workList == []
    requires CSMethod(sel.empty, entry) in st.reachable
    ensures IsSolution(prog, config, sel, entry, st.pt, st.reachable, st.callEdges, st.tfg)
  {
    forall m, s | m in st.reachable && s in prog.body(m.meth)
      ensures StmtRule(prog, sel, st.pt, st.callEdges, m, s)
    {
      assert MethodDone(prog, sel, st, m);
      StmtRuleAtFixpoint(prog, sel, st, m, s);
    }
    forall e | e in st.callEdges
      ensures EdgeRule(prog, config, sel.empty, st.pt, st.reachable, st.tfg, e)
    {
      EdgeRuleAtFixpoint(prog, config, sel, st, e);
    }
    forall c, x, o | o in PtsOf(st.pt, c, x)
      ensures ObjRule(prog, sel, st.pt, st.callEdges, c, x, o)
    {
      ObjRuleAtFixpoint(prog, sel, st, c, x, o);
    }
    var none: seq<Entry<Pointer, CSObj>> := [];
    assert forall p :: Pending(none, p) == {};
  }

  /**
   * Polling the head entry (p, objs) and propagating it keeps the invariant,
   * with the objects new to p left to be wired when p is a variable.
   */
  lemma PollKeepsInv(prog: Program, config: TaintConfig, sel: Selector, a: State, b: State, p: Pointer, objs: set<CSObj>,
                     retyped: seq<Entry<Pointer, CSObj>>)
    requires Inv(prog, config, sel, a, NothingUnfinished) && a.workList != [] && a.workList[0] == Entry(p, objs)
    requires b.pt == a.pt[p := PtOf(a.pt, p) + objs]
    requires a.workList[1..] + retyped <= b.workList
    requires RetypedQueued(sel.empty, a.tfg, p, Delta(a.pt, p, objs), retyped)
    requires QueuedForSuccs(a.pfg, p, Delta(a.pt, p, objs), b.workList[|a.workList| - 1 + |retyped|..])
    requires b.pfg == a.pfg && b.reachable == a.reachable && b.callEdges == a.callEdges && b.tfg == a.tfg
    ensures Inv(prog, config, sel, b, Unfinished({}, {}, PairsOf(p, Delta(a.pt, p, objs))))
  {
    PollGrows(sel.empty, a, b, p, objs, retyped);
    var u := Unfinished({}, {}, PairsOf(p, Delta(a.pt, p, objs)));
    InvWithPendingObjs(prog, config, sel, a, u.objs);
    NewObjsArePairs(a.pt, p, objs);
    InvGrows(prog, config, sel, a, b, u);
  }

  /** Polling the head entry (p, objs) and propagating it: the state grows and keeps every flow. */
  lemma PollGrows(empty: Context, a: State, b: State, p: Pointer, objs: set<CSObj>, retyped: seq<Entry<Pointer, CSObj>>)
    requires FlowsAlong(a.pt, a.pfg, a.workList) && TaintFlowsAlong(empty, a.pt, a.tfg, a.workList)
    requires a.workList != [] && a.workList[0] == Entry(p, objs)
    requires b.pt == a.pt[p := PtOf(a.pt, p) + objs]
    requires a.workList[1..] + retyped <= b.workList
    requires RetypedQueued(empty, a.tfg, p, Delta(a.pt, p, objs), retyped)
    requires QueuedForSuccs(a.pfg, p, Delta(a.pt, p, objs), b.workList[|a.workList| - 1 + |retyped|..])
    requires b.pfg == a.pfg && b.reachable == a.reachable && b.callEdges == a.callEdges && b.tfg == a.tfg
    ensures Grows(a, b) && FlowsAlong(b.pt, b.pfg, b.workList) && TaintFlowsAlong(empty, b.pt, b.tfg, b.workList)
  {
    var rest := a.workList[1..];
    var added := b.workList[|rest| + |retyped|..];
    assert a.workList == [Entry(p, objs)] + rest;
    assert b.workList == rest + retyped + added;
    PropagateKeepsTaintFlow(empty, a.pt, a.pfg, a.tfg, rest, p, objs, retyped, added);
  }

  /** Invariant that holds with nothing unfinished still holds with objects left to be wired. */
  lemma InvWithPendingObjs(prog: Program, config: TaintConfig, sel: Selector, st: State, objs: set<(Pointer, CSObj)>)
    requires Inv(prog, config, sel, st, NothingUnfinished)
    ensures Inv(prog, config, sel, st, Unfinished({}, {}, objs))
  {
  }

  /** The taint objects among objs, re-typed to ty: the loop of addTFGEdge. */
  method RetypeTaint(empty: Context, objs: set<CSObj>, ty: JType) returns (taintSet: set<CSObj>)
    ensures taintSet == Retyped(empty, objs, ty)
  {
    taintSet := {};
    var rest := objs;
    while rest != {}
      invariant rest <= objs
      invariant taintSet == Retyped(empty, objs - rest, ty)
      decreases rest
    {
      var o :| o in rest;
      if IsTaint(o) {
        taintSet := taintSet + {GetTaintObj(empty, GetSource(o).value, ty)};
      }
      rest := rest - {o};
      assert Retyped(empty, objs - rest, ty) ==
             Retyped(empty, objs - (rest + {o}), ty) + (if IsTaint(o) then {GetTaintObj(empty, o.obj.source, ty)} else {});
    }
    assert objs - rest == objs;
  }

  class Solver {
    const prog: Program
    const config: TaintConfig
    const sel: Selector
    var pt: map<Pointer, set<CSObj>>
    var pfg: set<(Pointer, Pointer)>
    var workList: seq<Entry<Pointer, CSObj>>
    var reachable: set<CSMethod>
    var callEdges: set<CallEdge>
    var entryMethods: set<CSMethod>
    /** The taint flow graph's (source, target, type) entries. */
    var tfg: set<TaintEdge>

    ghost function Snap(): State
      reads this
    {
      State(pt, pfg, workList, reachable, callEdges, tfg)
    }

    ghost predicate Flows()
      reads this
    {
      FlowsAlong(pt, pfg, workList) && TaintFlowsAlong(sel.empty, pt, tfg, workList)
    }

    ghost predicate Valid()
      reads this
    {
      WellFormed(prog) && SelectorWellFormed(sel) && ReceiversAgree(prog)
    }

    constructor(prog: Program, config: TaintConfig, sel: Selector)
      ensures this.prog == prog && this.config == config && this.sel == sel
      ensures pt == map[] && pfg == {} && workList == [] && reachable == {} && callEdges == {} && entryMethods == {}
      ensures tfg == {}
    {
      this.prog := prog;
      this.config := config;
      this.sel := sel;
      pt := map[];
      pfg := {};
      workList := [];
      reachable := {};
      callEdges := {};
      entryMethods := {};
      tfg := {};
    }

    /** Adds the edge s -> t; only a new edge queues what s points to at t, and only if that is not empty. */
    method AddPFGEdge(s: Pointer, t: Pointer)
      requires Flows()
      modifies this
      ensures pfg == old(pfg) + {(s, t)}
      ensures workList == old(workList)
        + (if (s, t) !in old(pfg) && PtOf(pt, s) != {} then [Entry(t, PtOf(pt, s))] else [])
      ensures pt == old(pt) && reachable == old(reachable) && callEdges == old(callEdges)
      ensures entryMethods == old(entryMethods) && tfg == old(tfg)
      ensures Flows()
    {
      ghost var g, wl := pfg, workList;
      if (s, t) !in pfg {
        pfg := pfg + {(s, t)};
        if PtOf(pt, s) != {} {
          workList := workList + [Entry(t, PtOf(pt, s))];
        }
      }
      AddEdgeKeepsFlow(pt, g, wl, s, t);
      TaintFlowsAppend(sel.empty, pt, tfg, wl, workList[|wl|..]);
      assert wl + workList[|wl|..] == workList;
    }

    /**
     * Adds the TFG entry (s, t, ty); only a new entry queues at t the taint
     * objects s points to, re-typed to ty, and only if there are any.
     */
    method AddTFGEdge(s: Pointer, t: Pointer, ty: JType)
      requires Flows()
      modifies this
      ensures tfg == old(tfg) + {(s, t, ty)}
      ensures workList == old(workList)
        + (if (s, t, ty) !in old(tfg) && Retyped(sel.empty, PtOf(pt, s), ty) != {}
           then [Entry(t, Retyped(sel.empty, PtOf(pt, s), ty))] else [])
      ensures pt == old(pt) && pfg == old(pfg) && reachable == old(reachable) && callEdges == old(callEdges)
      ensures entryMethods == old(entryMethods)
      ensures Flows()
    {
      ghost var wl := workList;
      if (s, t, ty) !in tfg {
        tfg := tfg + {(s, t, ty)};
        var taintSet := RetypeTaint(sel.empty, PtOf(pt, s), ty);
        if taintSet != {} {
          workList := workList + [Entry(t, taintSet)];
          EnqueueCovers(pt, wl, t, taintSet);
        }
        TaintFlowsAppend(sel.empty, pt, old(tfg), wl, workList[|wl|..]);
        assert wl + workList[|wl|..] == workList;
        TaintFlowsNewEdge(sel.empty, pt, old(tfg), workList, s, t, ty);
      }
      FlowsAlongAppend(pt, pfg, wl, workList[|wl|..]);
      assert wl + workList[|wl|..] == workList;
    }

    /** Queues objs at p. */
    method Enqueue(p: Pointer, objs: set<CSObj>)
      requires Flows()
      modifies this
      ensures workList == old(workList) + [Entry(p, objs)]
      ensures pt == old(pt) && pfg == old(pfg) && reachable == old(reachable) && callEdges == old(callEdges)
      ensures entryMethods == old(entryMethods) && tfg == old(tfg)
      ensures objs <= Covered(pt, workList, p)
      ensures Flows()
    {
      ghost var wl := workList;
      workList := workList + [Entry(p, objs)];
      EnqueueCovers(pt, wl, p, objs);
      FlowsAlongAppend(pt, pfg, wl, [Entry(p, objs)]);
      TaintFlowsAppend(sel.empty, pt, tfg, wl, [Entry(p, objs)]);
    }

    /** The arguments of a call, in the caller's context c, to the parameters, in the callee's context c'. */
    method AddArgEdges(c: Context, args: seq<Var>, c': Context, params: seq<Var>)
      requires |args| == |params|
      requires Flows()
      modifies this
      ensures pfg == old(pfg) + ArgEdges(c, args, c', params, |params|)
      ensures pt == old(pt) && old(workList) <= workList && tfg == old(tfg)
      ensures QueuedForNewEdges(pt, old(pfg), pfg, workList[|old(workList)|..])
      ensures reachable == old(reachable) && callEdges == old(callEdges) && entryMethods == old(entryMethods)
      ensures Flows()
    {
      for i := 0 to |params|
        invariant pfg == old(pfg) + ArgEdges(c, args, c', params, i)
        invariant pt == old(pt) && old(workList) <= workList && tfg == old(tfg)
        invariant QueuedForNewEdges(pt, old(pfg), pfg, workList[|old(workList)|..])
        invariant reachable == old(reachable) && callEdges == old(callEdges) && entryMethods == old(entryMethods)
        invariant Flows()
      {
        ghost var g, w := pfg, workList;
        AddPFGEdge(CSVar(c, args[i]), CSVar(c', params[i]));
        QueuedForNewEdgesStep(pt, old(pfg), g, old(workList), w, workList, CSVar(c, args[i]), CSVar(c', params[i]));
      }
    }

    /**
     * The arg-to-result TFG entries of a static call with a result, from the
     * arguments in the caller's context c to the result in the callee's
     * context c'.
     */
    method AddStaticArgTaint(c: Context, args: seq<Var>, c': Context, callee: Method, result: Option<Var>)
      requires Flows()
      modifies this
      ensures tfg == old(tfg) + StaticArgTaint(config, c, args, callee, c', result, |args|)
      ensures pt == old(pt) && old(workList) <= workList && pfg == old(pfg)
      ensures QueuedForNew(sel.empty, pt, old(pfg), pfg, old(tfg), tfg, {}, workList[|old(workList)|..])
      ensures reachable == old(reachable) && callEdges == old(callEdges) && entryMethods == old(entryMethods)
      ensures Flows()
    {
      QueuedForNothing(sel.empty, pt, pfg, tfg, workList);
      for i := 0 to |args|
        invariant tfg == old(tfg) + StaticArgTaint(config, c, args, callee, c', result, i)
        invariant pt == old(pt) && old(workList) <= workList && pfg == old(pfg)
        invariant QueuedForNew(sel.empty, pt, old(pfg), pfg, old(tfg), tfg, {}, workList[|old(workList)|..])
        invariant reachable == old(reachable) && callEdges == old(callEdges) && entryMethods == old(entryMethods)
        invariant Flows()
      {
        ghost var t1, w1 := tfg, workList;
        AddStaticArgEntry(c, args, c', callee, result, i);
        QueuedForNewChain(sel.empty, pt, old(pfg), pfg, pfg, old(tfg), t1, tfg, {}, {}, old(workList), w1, workList);
      }
    }

    /**
     * The arg-to-base TFG entries of an instance call, to the receiver
     * pointer recv, and, when the call has a result, its arg-to-result
     * entries, to the result; all in the caller's context c.
     */
    method AddInstanceArgTaint(c: Context, args: seq<Var>, callee: Method, recv: Pointer, result: Option<Var>)
      requires Flows()
      modifies this
      ensures tfg == old(tfg) + InstanceArgTaint(config, c, args, callee, recv, result, |args|)
      ensures pt == old(pt) && old(workList) <= workList && pfg == old(pfg)
      ensures QueuedForNew(sel.empty, pt, old(pfg), pfg, old(tfg), tfg, {}, workList[|old(workList)|..])
      ensures reachable == old(reachable) && callEdges == old(callEdges) && entryMethods == old(entryMethods)
      ensures Flows()
    {
      QueuedForNothing(sel.empty, pt, pfg, tfg, workList);
      for i := 0 to |args|
        invariant tfg == old(tfg) + InstanceArgTaint(config, c, args, callee, recv, result, i)
        invariant pt == old(pt) && old(workList) <= workList && pfg == old(pfg)
        invariant QueuedForNew(sel.empty, pt, old(pfg), pfg, old(tfg), tfg, {}, workList[|old(workList)|..])
        invariant reachable == old(reachable) && callEdges == old(callEdges) && entryMethods == old(entryMethods)
        invariant Flows()
      {
        ghost var t1, w1 := tfg, workList;
        AddInstanceArgEntry(c, args, callee, recv, result, i, old(tfg));
        QueuedForNewChain(sel.empty, pt, old(pfg), pfg, pfg, old(tfg), t1, tfg, {}, {}, old(workList), w1, workList);
      }
    }

    /** The arg-to-result TFG entry of argument i of a static call, if the call has a result and the callee such a transfer. */
    method AddStaticArgEntry(c: Context, args: seq<Var>, c': Context, callee: Method, result: Option<Var>, i: nat)
      requires i < |args|
      requires Flows()
      modifies this
      ensures tfg == old(tfg) + StaticArgEntry(config, c, args, callee, c', result, i)
      ensures pt == old(pt) && old(workList) <= workList && pfg == old(pfg)
      ensures QueuedForNew(sel.empty, pt, old(pfg), pfg, old(tfg), tfg, {}, workList[|old(workList)|..])
      ensures reachable == old(reachable) && callEdges == old(callEdges) && entryMethods == old(entryMethods)
      ensures Flows()
    {
      QueuedForNothing(sel.empty, pt, pfg, tfg, workList);
      if result.Some? {
        var a2rType := Arg2Result(config, callee, i);
        if a2rType.Some? {
          AddTFGEdge(CSVar(c, args[i]), CSVar(c', result.value), a2rType.value);
          QueuedForTfgEdge(sel.empty, pt, pfg, old(tfg), old(workList), workList,
                           CSVar(c, args[i]), CSVar(c', result.value), a2rType.value);
        }
      }
    }

    /**
     * The arg-to-base and arg-to-result TFG entries of argument i of an
     * instance call, added to a TFG that holds those of the arguments before i.
     */
    method AddInstanceArgEntry(c: Context, args: seq<Var>, callee: Method, recv: Pointer, result: Option<Var>, i: nat,
                               ghost base: set<TaintEdge>)
      requires i < |args|
      requires tfg == base + InstanceArgTaint(config, c, args, callee, recv, result, i)
      requires Flows()
      modifies this
      ensures tfg == old(tfg) + InstanceArgEntry(config, c, args, callee, recv, result, i)
      ensures tfg == base + InstanceArgTaint(config, c, args, callee, recv, result, i + 1)
      ensures pt == old(pt) && old(workList) <= workList && pfg == old(pfg)
      ensures QueuedForNew(sel.empty, pt, old(pfg), pfg, old(tfg), tfg, {}, workList[|old(workList)|..])
      ensures reachable == old(reachable) && callEdges == old(callEdges) && entryMethods == old(entryMethods)
      ensures Flows()
    {
      var src := CSVar(c, args[i]);
      QueuedForNothing(sel.empty, pt, pfg, tfg, workList);
      var a2bType := Arg2Base(config, callee, i);
      if a2bType.Some? {
        AddTFGEdge(src, recv, a2bType.value);
        QueuedForTfgEdge(sel.empty, pt, pfg, old(tfg), old(workList), workList, src, recv, a2bType.value);
      }
      ghost var t1, w1 := tfg, workList;
      QueuedForNothing(sel.empty, pt, pfg, tfg, workList);
      if result.Some? {
        var a2rType := Arg2Result(config, callee, i);
        if a2rType.Some? {
          AddTFGEdge(src, CSVar(c, result.value), a2rType.value);
          QueuedForTfgEdge(sel.empty, pt, pfg, t1, w1, workList, src, CSVar(c, result.value), a2rType.value);
        }
      }
      QueuedForNewChain(sel.empty, pt, old(pfg), pfg, pfg, old(tfg), t1, tfg, {}, {}, old(workList), w1, workList);
    }

    /** Adds ret -> r for every return variable ret, in the callee's context c', and the result r, in the caller's context c. */
    method AddReturnEdges(c': Context, rets: seq<Var>, c: Context, r: Var)
      requires Flows()
      modifies this
      ensures pfg == old(pfg) + RetEdges(c', rets, c, r, |rets|)
      ensures pt == old(pt) && old(workList) <= workList && tfg == old(tfg)
      ensures QueuedForNewEdges(pt, old(pfg), pfg, workList[|old(workList)|..])
      ensures reachable == old(reachable) && callEdges == old(callEdges) && entryMethods == old(entryMethods)
      ensures Flows()
    {
      for i := 0 to |rets|
        invariant pfg == old(pfg) + RetEdges(c', rets, c, r, i)
        invariant pt == old(pt) && old(workList) <= workList && tfg == old(tfg)
        invariant QueuedForNewEdges(pt, old(pfg), pfg, workList[|old(workList)|..])
        invariant reachable == old(reachable) && callEdges == old(callEdges) && entryMethods == old(entryMethods)
        invariant Flows()
      {
        ghost var g, w := pfg, workList;
        AddPFGEdge(CSVar(c', rets[i]), CSVar(c, r));
        QueuedForNewEdgesStep(pt, old(pfg), g, old(workList), w, workList, CSVar(c', rets[i]), CSVar(c, r));
      }
    }

    /** When the callee is a source, queues its taint object for the call site at target. */
    method SeedSource(site: CallSiteId, callee: Method, target: Pointer)
      requires Flows()
      modifies this
      ensures var ty := LastSourceType(config.sources, callee);
              ty.Some? ==> GetTaintObj(sel.empty, site, ty.value) in Covered(pt, workList, target)
      ensures var seed := SourceSeed(config, sel.empty, site, callee, target);
              workList == old(workList) + (if seed.Some? then [Entry(target, {seed.value.1})] else [])
      ensures pt == old(pt) && pfg == old(pfg) && tfg == old(tfg)
      ensures reachable == old(reachable) && callEdges == old(callEdges) && entryMethods == old(entryMethods)
      ensures Flows()
    {
      var ty := GetMethodTypeSource(config, callee);
      if ty.Some? {
        Enqueue(target, {GetTaintObj(sel.empty, site, ty.value)});
      }
    }

    /**
     * The wiring of a new static call edge, as the statement visitor does it:
     * argument and arg-to-result entries, return edges, and the source's
     * taint object at the result in the caller's context.
     */
    method ConnectStaticCall(e: CallEdge)
      requires prog.invokes(e.callSite.site).isStatic
      requires |prog.invokes(e.callSite.site).args| == |prog.params(e.callee.meth)|
      requires Flows()
      modifies this
      ensures pfg == old(pfg) + CallFlow(prog, e) && tfg == old(tfg) + TaintEdgesOf(prog, config, e)
      ensures var seed := SeedOf(prog, config, sel.empty, e);
              seed.Some? ==> seed.value.1 in Covered(pt, workList, seed.value.0)
      ensures pt == old(pt) && old(workList) <= workList
      ensures QueuedForNew(sel.empty, pt, old(pfg), pfg, old(tfg), tfg, SeedEntries(SeedOf(prog, config, sel.empty, e)),
                           workList[|old(workList)|..])
      ensures reachable == old(reachable) && callEdges == old(callEdges) && entryMethods == old(entryMethods)
      ensures Flows()
    {
      var inv := prog.invokes(e.callSite.site);
      var callee := e.callee.meth;
      var context, calleeContext := e.callSite.ctx, e.callee.ctx;
      AddArgEdges(context, inv.args, calleeContext, prog.params(callee));
      QueuedForPfgOnly(sel.empty, pt, old(pfg), pfg, tfg, workList[|old(workList)|..]);
      ghost var g1, w1 := pfg, workList;
      AddStaticArgTaint(context, inv.args, calleeContext, callee, inv.result);
      QueuedForNewChain(sel.empty, pt, old(pfg), g1, pfg, old(tfg), old(tfg), tfg, {}, {}, old(workList), w1, workList);
      if inv.result.Some? {
        var r := inv.result.value;
        ghost var g2, t2, w2 := pfg, tfg, workList;
        AddReturnEdges(calleeContext, prog.returnVars(callee), context, r);
        QueuedForPfgOnly(sel.empty, pt, g2, pfg, tfg, workList[|w2|..]);
        QueuedForNewChain(sel.empty, pt, old(pfg), g2, pfg, old(tfg), t2, tfg, {}, {}, old(workList), w2, workList);
        ghost var w3 := workList;
        SeedSource(e.callSite.site, callee, CSVar(context, r));
        ghost var seed := SourceSeed(config, sel.empty, e.callSite.site, callee, CSVar(context, r));
        QueuedForSeed(sel.empty, pt, pfg, tfg, w3, workList, seed);
        QueuedForNewChain(sel.empty, pt, old(pfg), pfg, pfg, old(tfg), tfg, tfg, {}, SeedEntries(seed), old(workList), w3, workList);
        assert seed == SeedOf(prog, config, sel.empty, e);
      }
    }

    /**
     * The wiring of a new instance call edge, as processCall does it, for
     * the receiver pointer recv: argument, arg-to-base and arg-to-result
     * entries, return edges, the source's taint object at the result in the
     * callee's context, and the base-to-result entry.
     */
    method ConnectInstanceCall(e: CallEdge, recv: Pointer)
      requires !prog.invokes(e.callSite.site).isStatic && prog.invokes(e.callSite.site).base.Some?
      requires recv == CSVar(e.callSite.ctx, prog.invokes(e.callSite.site).base.value)
      requires |prog.invokes(e.callSite.site).args| == |prog.params(e.callee.meth)|
      requires Flows()
      modifies this
      ensures pfg == old(pfg) + CallFlow(prog, e) && tfg == old(tfg) + TaintEdgesOf(prog, config, e)
      ensures var seed := SeedOf(prog, config, sel.empty, e);
              seed.Some? ==> seed.value.1 in Covered(pt, workList, seed.value.0)
      ensures pt == old(pt) && old(workList) <= workList
      ensures QueuedForNew(sel.empty, pt, old(pfg), pfg, old(tfg), tfg, SeedEntries(SeedOf(prog, config, sel.empty, e)),
                           workList[|old(workList)|..])
      ensures reachable == old(reachable) && callEdges == old(callEdges) && entryMethods == old(entryMethods)
      ensures Flows()
    {
      var inv := prog.invokes(e.callSite.site);
      var callee := e.callee.meth;
      var callSiteContext, calleeContext := e.callSite.ctx, e.callee.ctx;
      AddArgEdges(callSiteContext, inv.args, calleeContext, prog.params(callee));
      QueuedForPfgOnly(sel.empty, pt, old(pfg), pfg, tfg, workList[|old(workList)|..]);
      ghost var g1, w1 := pfg, workList;
      AddInstanceArgTaint(callSiteContext, inv.args, callee, recv, inv.result);
      QueuedForNewChain(sel.empty, pt, old(pfg), g1, pfg, old(tfg), old(tfg), tfg, {}, {}, old(workList), w1, workList);
      if inv.result.Some? {
        ghost var g2, t2, w2 := pfg, tfg, workList;
        ConnectInstanceResult(e.callSite.site, callee, calleeContext, callSiteContext, recv, inv.result.value);
        ghost var seed := SourceSeed(config, sel.empty, e.callSite.site, callee, CSVar(calleeContext, inv.result.value));
        QueuedForNewChain(sel.empty, pt, old(pfg), g2, pfg, old(tfg), t2, tfg, {}, SeedEntries(seed), old(workList), w2, workList);
        assert seed == SeedOf(prog, config, sel.empty, e);
      }
    }

    /**
     * The part of an instance call edge's wiring that needs the call's
     * result variable r: return edges, the source's taint object at r in
     * the callee's context, and the base-to-result entry.
     */
    method ConnectInstanceResult(site: CallSiteId, callee: Method, calleeContext: Context, callSiteContext: Context,
                                 recv: Pointer, r: Var)
      requires Flows()
      modifies this
      ensures pfg == old(pfg) + RetEdges(calleeContext, prog.returnVars(callee), callSiteContext, r, |prog.returnVars(callee)|)
      ensures var b2r := FirstTransferType(config.transfers, callee, BASE, RESULT);
              tfg == old(tfg) + (if b2r.Some? then {(recv, CSVar(callSiteContext, r), b2r.value)} else {})
      ensures var ty := LastSourceType(config.sources, callee);
              ty.Some? ==> GetTaintObj(sel.empty, site, ty.value) in Covered(pt, workList, CSVar(calleeContext, r))
      ensures pt == old(pt) && old(workList) <= workList
      ensures QueuedForNew(sel.empty, pt, old(pfg), pfg, old(tfg), tfg,
                           SeedEntries(SourceSeed(config, sel.empty, site, callee, CSVar(calleeContext, r))),
                           workList[|old(workList)|..])
      ensures reachable == old(reachable) && callEdges == old(callEdges) && entryMethods == old(entryMethods)
      ensures Flows()
    {
      AddReturnEdges(calleeContext, prog.returnVars(callee), callSiteContext, r);
      QueuedForPfgOnly(sel.empty, pt, old(pfg), pfg, tfg, workList[|old(workList)|..]);
      ghost var w1 := workList;
      SeedSource(site, callee, CSVar(calleeContext, r));
      ghost var seed := SourceSeed(config, sel.empty, site, callee, CSVar(calleeContext, r));
      QueuedForSeed(sel.empty, pt, pfg, tfg, w1, workList, seed);
      QueuedForNewChain(sel.empty, pt, old(pfg), pfg, pfg, old(tfg), tfg, tfg, {}, SeedEntries(seed), old(workList), w1, workList);
      ghost var seeded := workList;
      QueuedForNothing(sel.empty, pt, pfg, tfg, workList);
      var b2rType := Base2Result(config, callee);
      if b2rType.Some? {
        AddTFGEdge(recv, CSVar(callSiteContext, r), b2rType.value);
        QueuedForTfgEdge(sel.empty, pt, pfg, old(tfg), seeded, workList, recv, CSVar(callSiteContext, r), b2rType.value);
      }
      QueuedForNewChain(sel.empty, pt, old(pfg), pfg, pfg, old(tfg), old(tfg), tfg, SeedEntries(seed), {}, old(workList), seeded, workList);
      assert SeedEntries(seed) + {} == SeedEntries(seed);
      PrefixCoveredGrows(pt, seeded, workList);
    }

    /** Makes the pair m reachable and wires its statements, the first time only. */
    method AddReachable(m: CSMethod, ghost u: Unfinished)
      requires Valid() && m in Universe(prog, sel) && Inv(prog, config, sel, Snap(), u)
      modifies this
      decreases |Universe(prog, sel) - reachable|, 0
      ensures m in reachable && entryMethods == old(entryMethods)
      ensures old(m in reachable) ==> Snap() == old(Snap())
      ensures Inv(prog, config, sel, Snap(), u) && Extends(old(Snap()), Snap())
    {
      if m !in reachable {
        ghost var a := Snap();
        reachable := reachable + {m};
        MarkReachable(prog, config, sel, a, m, u);
        ghost var b := Snap();
        VisitBody(m, u.(methods := u.methods + {m}));
        FinishReachable(prog, config, sel, Snap(), m, u);
        ExtendsTrans(a, b, Snap());
      }
    }

    /** Visits every statement of m's method in m's context, in order. */
    method VisitBody(m: CSMethod, ghost u: Unfinished)
      requires Valid() && Inv(prog, config, sel, Snap(), u)
      modifies this
      decreases |Universe(prog, sel) - reachable|, 3
      ensures PrefixDone(prog, sel, Snap(), m, prog.body(m.meth), |prog.body(m.meth)|)
      ensures |Universe(prog, sel) - reachable| <= |Universe(prog, sel) - old(reachable)|
      ensures entryMethods == old(entryMethods)
      ensures Inv(prog, config, sel, Snap(), u) && Extends(old(Snap()), Snap())
    {
      var stmts := prog.body(m.meth);
      for i := 0 to |stmts|
        invariant entryMethods == old(entryMethods)
        invariant |Universe(prog, sel) - reachable| <= |Universe(prog, sel) - old(reachable)|
        invariant Inv(prog, config, sel, Snap(), u) && Extends(old(Snap()), Snap())
        invariant PrefixDone(prog, sel, Snap(), m, stmts, i)
      {
        ghost var b := Snap();
        VisitStmt(m, stmts[i], u);
        ExtendsGrows(b, Snap());
        DiffShrinks(Universe(prog, sel), b.reachable, reachable);
        PrefixDoneGrows(prog, sel, b, Snap(), m, stmts, i);
      }
    }

    /**
     * The statement visitor, for statements of csm: as in the A6 solver,
     * except that a new static call edge also brings its taint wiring.
     */
    method VisitStmt(csm: CSMethod, s: Stmt, ghost u: Unfinished)
      requires Valid() && Inv(prog, config, sel, Snap(), u)
      modifies this
      decreases |Universe(prog, sel) - reachable|, 2
      ensures StmtDone(prog, sel, Snap(), csm, s)
      ensures s.New? ==> Snap() == old(Snap()).(workList := old(workList)
                + [Entry(CSVar(csm.ctx, s.lhs), {CSObj(sel.heapContext(csm, s.obj), s.obj)})])
      ensures s.Copy? ==> pfg == old(pfg) + {(CSVar(csm.ctx, s.rhs), CSVar(csm.ctx, s.lhs))} && pt == old(pt)
      ensures s.StoreField? && s.isStatic ==> pfg == old(pfg) + {(CSVar(csm.ctx, s.rhs), StaticField(s.field))} && pt == old(pt)
      ensures s.LoadField? && s.isStatic ==> pfg == old(pfg) + {(StaticField(s.field), CSVar(csm.ctx, s.lhs))} && pt == old(pt)
      ensures s.Other? || (s.StoreField? && !s.isStatic) || (s.LoadField? && !s.isStatic) ==> Snap() == old(Snap())
      ensures s.Call? && !prog.invokes(s.site).isStatic ==> Snap() == old(Snap())
      ensures s.Call? && StaticEdge(prog, sel, csm, s.site) in old(callEdges) ==> Snap() == old(Snap())
      ensures !s.Call? ==> reachable == old(reachable) && callEdges == old(callEdges) && tfg == old(tfg)
      ensures (s.Copy? || (s.StoreField? && s.isStatic) || (s.LoadField? && s.isStatic)) ==>
                old(workList) <= workList && QueuedForNewEdges(pt, old(pfg), pfg, workList[|old(workList)|..])
      ensures entryMethods == old(entryMethods)
      ensures Inv(prog, config, sel, Snap(), u) && Extends(old(Snap()), Snap())
    {
      ghost var a := Snap();
      var context := csm.ctx;
      match s
      case New(x, o) =>
        var heapContext := sel.heapContext(csm, o);
        Enqueue(CSVar(context, x), {CSObj(heapContext, o)});
        InvStep(prog, config, sel, a, Snap(), u);
      case Copy(x, y) =>
        AddPFGEdge(CSVar(context, y), CSVar(context, x));
        QueuedForAddedEdge(pt, a.pfg, a.workList, workList, CSVar(context, y), CSVar(context, x));
        InvStep(prog, config, sel, a, Snap(), u);
      case StoreField(isStatic, f, y) =>
        if isStatic {
          AddPFGEdge(CSVar(context, y), StaticField(f));
          QueuedForAddedEdge(pt, a.pfg, a.workList, workList, CSVar(context, y), StaticField(f));
          InvStep(prog, config, sel, a, Snap(), u);
        }
      case LoadField(isStatic, x, f) =>
        if isStatic {
          AddPFGEdge(StaticField(f), CSVar(context, x));
          QueuedForAddedEdge(pt, a.pfg, a.workList, workList, StaticField(f), CSVar(context, x));
          InvStep(prog, config, sel, a, Snap(), u);
        }
      case Call(site) =>
        if prog.invokes(site).isStatic {
          var callee := prog.resolveCallee(None, site);
          var csCallSite := CSCallSite(context, site);
          var calleeContext := sel.staticContext(csCallSite, callee);
          var edge := CallEdge(Cha.CallKind.STATIC, csCallSite, CSMethod(calleeContext, callee));
          if edge !in callEdges {
            NewCallEdge(edge, None, u);
          }
        }
      case Other =>
    }

    /**
     * Adds a new call edge, makes its callee pair reachable and wires it: as
     * a static call, or as an instance call on the receiver pointer recv.
     */
    method NewCallEdge(edge: CallEdge, recv: Option<Pointer>, ghost u: Unfinished)
      requires Valid() && Inv(prog, config, sel, Snap(), u)
      requires edge.callee in Universe(prog, sel)
      requires |prog.invokes(edge.callSite.site).args| == |prog.params(edge.callee.meth)|
      requires prog.invokes(edge.callSite.site).isStatic <==> recv.None?
      requires recv.Some? ==> prog.invokes(edge.callSite.site).base.Some?
                              && recv.value == CSVar(edge.callSite.ctx, prog.invokes(edge.callSite.site).base.value)
      requires edge !in callEdges
      modifies this
      decreases |Universe(prog, sel) - reachable|, 1
      ensures old(callEdges) + {edge} <= callEdges
      ensures entryMethods == old(entryMethods)
      ensures Inv(prog, config, sel, Snap(), u) && Extends(old(Snap()), Snap())
    {
      ghost var a := Snap();
      callEdges := callEdges + {edge};
      ghost var u' := u.(edges := u.edges + {edge});
      ExtendsGrows(a, Snap());
      InvGrows(prog, config, sel, a, Snap(), u');
      AddReachable(edge.callee, u');
      ghost var b := Snap();
      ConnectEdge(edge, recv);
      InvStep(prog, config, sel, b, Snap(), u');
      assert EdgeWired(prog, config, sel, Snap(), edge);
      InvRelease(prog, config, sel, Snap(), u', u);
    }

    /** Connects a call edge: as a static call, or as an instance call on the receiver pointer recv. */
    method ConnectEdge(edge: CallEdge, recv: Option<Pointer>)
      requires |prog.invokes(edge.callSite.site).args| == |prog.params(edge.callee.meth)|
      requires prog.invokes(edge.callSite.site).isStatic <==> recv.None?
      requires recv.Some? ==> prog.invokes(edge.callSite.site).base.Some?
                              && recv.value == CSVar(edge.callSite.ctx, prog.invokes(edge.callSite.site).base.value)
      requires Flows()
      modifies this
      ensures pfg == old(pfg) + CallFlow(prog, edge) && tfg == old(tfg) + TaintEdgesOf(prog, config, edge)
      ensures var seed := SeedOf(prog, config, sel.empty, edge);
              seed.Some? ==> seed.value.1 in Covered(pt, workList, seed.value.0)
      ensures pt == old(pt) && old(workList) <= workList
      ensures reachable == old(reachable) && callEdges == old(callEdges) && entryMethods == old(entryMethods)
      ensures Flows()
    {
      if recv.None? {
        ConnectStaticCall(edge);
      } else {
        ConnectInstanceCall(edge, recv.value);
      }
    }

    /** Queues, at each target of targets, the taint object of source re-typed to the target's type. */
    method EnqueueRetyped(targets: set<(Pointer, JType)>, source: CallSiteId) returns (ghost queued: seq<Entry<Pointer, CSObj>>)
      modifies this
      ensures workList == old(workList) + queued
      ensures forall e :: e in workList[|old(workList)|..] <==> e in RetypedEntries(sel.empty, targets, source)
      ensures pt == old(pt) && pfg == old(pfg) && tfg == old(tfg)
      ensures reachable == old(reachable) && callEdges == old(callEdges) && entryMethods == old(entryMethods)
    {
      queued := [];
      var rest := targets;
      while rest != {}
        invariant rest <= targets
        invariant workList == old(workList) + queued
        invariant forall e :: e in queued <==> e in RetypedEntries(sel.empty, targets - rest, source)
        invariant pt == old(pt) && pfg == old(pfg) && tfg == old(tfg)
        invariant reachable == old(reachable) && callEdges == old(callEdges) && entryMethods == old(entryMethods)
        decreases rest
      {
        var elem :| elem in rest;
        var entry := Entry(elem.0, {GetTaintObj(sel.empty, source, elem.1)});
        workList := workList + [entry];
        assert RetypedEntries(sel.empty, targets - (rest - {elem}), source)
            == RetypedEntries(sel.empty, targets - rest, source) + {entry};
        queued := queued + [entry];
        rest := rest - {elem};
      }
      assert targets - rest == targets;
      assert workList[|old(workList)|..] == queued;
    }

    /**
     * Adds objs to the points-to set of p and returns the objects that were
     * new there. Each new taint object has its re-typed copies queued along
     * the TFG entries of p as it is added; then, when any object was new,
     * the new objects are queued at every PFG successor of p.
     */
    method Propagate(p: Pointer, objs: set<CSObj>) returns (delta: set<CSObj>, ghost retyped: seq<Entry<Pointer, CSObj>>)
      modifies this
      ensures delta == Delta(old(pt), p, objs)
      ensures pt == old(pt)[p := PtOf(old(pt), p) + objs]
      ensures old(workList) + retyped <= workList
      ensures RetypedQueued(sel.empty, tfg, p, delta, retyped)
      ensures QueuedForSuccs(pfg, p, delta, workList[|old(workList)| + |retyped|..])
      ensures pfg == old(pfg) && reachable == old(reachable) && callEdges == old(callEdges) && tfg == old(tfg)
      ensures entryMethods == old(entryMethods)
    {
      delta := {};
      retyped := [];
      pt := pt[p := PtOf(pt, p)];
      var targets := TfgSuccs(tfg, p);
      TfgSuccsMembers(tfg, p);
      var rest := objs;
      while rest != {}
        invariant rest <= objs
        invariant p in pt && pt == old(pt)[p := pt[p]]
        invariant pt[p] == PtOf(old(pt), p) + (objs - rest)
        invariant delta == (objs - rest) - PtOf(old(pt), p)
        invariant workList == old(workList) + retyped
        invariant RetypedQueued(sel.empty, tfg, p, delta, retyped)
        invariant pfg == old(pfg) && tfg == old(tfg)
        invariant reachable == old(reachable) && callEdges == old(callEdges) && entryMethods == old(entryMethods)
        decreases rest
      {
        var o :| o in rest;
        if o !in pt[p] {
          pt := pt[p := pt[p] + {o}];
          ghost var before := delta;
          delta := delta + {o};
          if IsTaint(o) {
            ghost var w := workList;
            var queued := EnqueueRetyped(targets, GetSource(o).value);
            assert workList[|w|..] == queued;
            RetypedQueuedStep(sel.empty, tfg, p, before, retyped, o, queued);
            retyped := retyped + queued;
          } else {
            RetypedQueuedStep(sel.empty, tfg, p, before, retyped, o, []);
            assert retyped + [] == retyped;
          }
        }
        rest := rest - {o};
      }
      assert objs - rest == objs;
      ghost var base := workList;
      if delta != {} {
        EnqueueAtSuccs(p, delta);
        assert workList[|old(workList)| + |retyped|..] == workList[|base|..];
      } else {
        assert workList[|old(workList)| + |retyped|..] == [];
      }
    }

    /** Queues delta, which is not empty, at every PFG successor of p. */
    method EnqueueAtSuccs(p: Pointer, delta: set<CSObj>)
      requires delta != {}
      modifies this
      ensures old(workList) <= workList && QueuedForSuccs(pfg, p, delta, workList[|old(workList)|..])
      ensures pt == old(pt) && pfg == old(pfg) && reachable == old(reachable) && callEdges == old(callEdges)
      ensures tfg == old(tfg) && entryMethods == old(entryMethods)
    {
      var succs := Succs(pfg, p);
      ghost var added: seq<Entry<Pointer, CSObj>> := [];
      while succs != {}
        invariant succs <= Succs(pfg, p)
        invariant workList == old(workList) + added
        invariant forall e :: e in added <==> e.objs == delta && e.pointer in Succs(pfg, p) - succs
        invariant pt == old(pt) && pfg == old(pfg) && reachable == old(reachable) && callEdges == old(callEdges)
        invariant tfg == old(tfg) && entryMethods == old(entryMethods)
        decreases succs
      {
        var t :| t in succs;
        workList := workList + [Entry(t, delta)];
        added := added + [Entry(t, delta)];
        succs := succs - {t};
      }
      assert workList[|old(workList)|..] == added;
    }

    /** y -> o.f, y in context c, for every x.f = y. */
    method AddStoreEdges(c: Context, stores: seq<FieldStore>, o: CSObj)
      requires Flows()
      modifies this
      ensures pfg == old(pfg) + StoreEdges(c, stores, o, |stores|)
      ensures pt == old(pt) && old(workList) <= workList && tfg == old(tfg)
      ensures QueuedForNewEdges(pt, old(pfg), pfg, workList[|old(workList)|..])
      ensures reachable == old(reachable) && callEdges == old(callEdges) && entryMethods == old(entryMethods)
      ensures Flows()
    {
      for i := 0 to |stores|
        invariant pfg == old(pfg) + StoreEdges(c, stores, o, i)
        invariant pt == old(pt) && old(workList) <= workList && tfg == old(tfg)
        invariant QueuedForNewEdges(pt, old(pfg), pfg, workList[|old(workList)|..])
        invariant reachable == old(reachable) && callEdges == old(callEdges) && entryMethods == old(entryMethods)
        invariant Flows()
      {
        ghost var g, w := pfg, workList;
        AddPFGEdge(CSVar(c, stores[i].rhs), InstanceField(o, stores[i].field));
        QueuedForNewEdgesStep(pt, old(pfg), g, old(workList), w, workList, CSVar(c, stores[i].rhs), InstanceField(o, stores[i].field));
      }
    }

    /** o.f -> y, y in context c, for every y = x.f. */
    method AddLoadEdges(c: Context, loads: seq<FieldLoad>, o: CSObj)
      requires Flows()
      modifies this
      ensures pfg == old(pfg) + LoadEdges(c, loads, o, |loads|)
      ensures pt == old(pt) && old(workList) <= workList && tfg == old(tfg)
      ensures QueuedForNewEdges(pt, old(pfg), pfg, workList[|old(workList)|..])
      ensures reachable == old(reachable) && callEdges == old(callEdges) && entryMethods == old(entryMethods)
      ensures Flows()
    {
      for i := 0 to |loads|
        invariant pfg == old(pfg) + LoadEdges(c, loads, o, i)
        invariant pt == old(pt) && old(workList) <= workList && tfg == old(tfg)
        invariant QueuedForNewEdges(pt, old(pfg), pfg, workList[|old(workList)|..])
        invariant reachable == old(reachable) && callEdges == old(callEdges) && entryMethods == old(entryMethods)
        invariant Flows()
      {
        ghost var g, w := pfg, workList;
        AddPFGEdge(InstanceField(o, loads[i].field), CSVar(c, loads[i].lhs));
        QueuedForNewEdgesStep(pt, old(pfg), g, old(workList), w, workList, InstanceField(o, loads[i].field), CSVar(c, loads[i].lhs));
      }
    }

    /** y -> o[*], y in context c, for every x[*] = y. */
    method AddArrayStoreEdges(c: Context, rhss: seq<Var>, o: CSObj)
      requires Flows()
      modifies this
      ensures pfg == old(pfg) + ArrayStoreEdges(c, rhss, o, |rhss|)
      ensures pt == old(pt) && old(workList) <= workList && tfg == old(tfg)
      ensures QueuedForNewEdges(pt, old(pfg), pfg, workList[|old(workList)|..])
      ensures reachable == old(reachable) && callEdges == old(callEdges) && entryMethods == old(entryMethods)
      ensures Flows()
    {
      for i := 0 to |rhss|
        invariant pfg == old(pfg) + ArrayStoreEdges(c, rhss, o, i)
        invariant pt == old(pt) && old(workList) <= workList && tfg == old(tfg)
        invariant QueuedForNewEdges(pt, old(pfg), pfg, workList[|old(workList)|..])
        invariant reachable == old(reachable) && callEdges == old(callEdges) && entryMethods == old(entryMethods)
        invariant Flows()
      {
        ghost var g, w := pfg, workList;
        AddPFGEdge(CSVar(c, rhss[i]), ArrayIndex(o));
        QueuedForNewEdgesStep(pt, old(pfg), g, old(workList), w, workList, CSVar(c, rhss[i]), ArrayIndex(o));
      }
    }

    /** o[*] -> y, y in context c, for every y = x[*]. */
    method AddArrayLoadEdges(c: Context, lhss: seq<Var>, o: CSObj)
      requires Flows()
      modifies this
      ensures pfg == old(pfg) + ArrayLoadEdges(c, lhss, o, |lhss|)
      ensures pt == old(pt) && old(workList) <= workList && tfg == old(tfg)
      ensures QueuedForNewEdges(pt, old(pfg), pfg, workList[|old(workList)|..])
      ensures reachable == old(reachable) && callEdges == old(callEdges) && entryMethods == old(entryMethods)
      ensures Flows()
    {
      for i := 0 to |lhss|
        invariant pfg == old(pfg) + ArrayLoadEdges(c, lhss, o, i)
        invariant pt == old(pt) && old(workList) <= workList && tfg == old(tfg)
        invariant QueuedForNewEdges(pt, old(pfg), pfg, workList[|old(workList)|..])
        invariant reachable == old(reachable) && callEdges == old(callEdges) && entryMethods == old(entryMethods)
        invariant Flows()
      {
        ghost var g, w := pfg, workList;
        AddPFGEdge(ArrayIndex(o), CSVar(c, lhss[i]));
        QueuedForNewEdgesStep(pt, old(pfg), g, old(workList), w, workList, ArrayIndex(o), CSVar(c, lhss[i]));
      }
    }

    /** For a new object o of x in context c: its field and array edges. */
    method ReplayFields(c: Context, x: Var, o: CSObj)
      requires Flows()
      modifies this
      ensures pfg == old(pfg) + FieldFlow(prog, c, x, o)
      ensures pt == old(pt) && old(workList) <= workList && tfg == old(tfg)
      ensures QueuedForNewEdges(pt, old(pfg), pfg, workList[|old(workList)|..])
      ensures reachable == old(reachable) && callEdges == old(callEdges) && entryMethods == old(entryMethods)
      ensures Flows()
    {
      AddStoreEdges(c, prog.storeFields(x), o);
      ghost var g1, w1 := pfg, workList;
      AddLoadEdges(c, prog.loadFields(x), o);
      QueuedForNewEdgesChain(pt, old(pfg), g1, pfg, old(workList), w1, workList);
      ghost var g2, w2 := pfg, workList;
      AddArrayStoreEdges(c, prog.storeArrays(x), o);
      QueuedForNewEdgesChain(pt, old(pfg), g2, pfg, old(workList), w2, workList);
      ghost var g3, w3 := pfg, workList;
      AddArrayLoadEdges(c, prog.loadArrays(x), o);
      QueuedForNewEdgesChain(pt, old(pfg), g3, pfg, old(workList), w3, workList);
    }

    /**
     * Processes the calls on receiver variable x, in context c, for its new
     * object o: queues o at the callee's `this` in its selected context, and
     * when the call edge is new, makes that pair reachable and wires the
     * edge, taint included, with CSVar(c, x) as the receiver pointer.
     */
    method ProcessCall(c: Context, x: Var, o: CSObj, ghost u: Unfinished)
      requires Valid() && Inv(prog, config, sel, Snap(), u)
      modifies this
      ensures forall site :: site in prog.invokesOn(x) ==> CallWired(prog, sel, Snap(), c, site, o)
      ensures pt == old(pt) && entryMethods == old(entryMethods)
      ensures Inv(prog, config, sel, Snap(), u) && Extends(old(Snap()), Snap())
    {
      var sites := prog.invokesOn(x);
      for k := 0 to |sites|
        invariant pt == old(pt) && entryMethods == old(entryMethods)
        invariant Inv(prog, config, sel, Snap(), u) && Extends(old(Snap()), Snap())
        invariant forall j :: 0 <= j < k ==> CallWired(prog, sel, Snap(), c, sites[j], o)
      {
        ghost var a := Snap();
        ProcessSite(c, x, o, sites[k], u);
        ExtendsGrows(a, Snap());
        forall j | 0 <= j < k
          ensures CallWired(prog, sel, Snap(), c, sites[j], o)
        {
          assert CallWired(prog, sel, a, c, sites[j], o);
        }
      }
      assert forall site :: site in sites ==> exists j :: 0 <= j < |sites| && sites[j] == site;
    }

    /** One call site on the receiver x for the object o: the object flows to the callee's `this`, and the edge is wired. */
    method ProcessSite(c: Context, x: Var, o: CSObj, site: CallSiteId, ghost u: Unfinished)
      requires Valid() && Inv(prog, config, sel, Snap(), u)
      requires site in prog.invokesOn(x)
      modifies this
      ensures CallWired(prog, sel, Snap(), c, site, o)
      ensures pt == old(pt) && entryMethods == old(entryMethods)
      ensures Inv(prog, config, sel, Snap(), u) && Extends(old(Snap()), Snap())
    {
      ghost var a := Snap();
      var recv := CSVar(c, x);
      var callee := prog.resolveCallee(Some(o.obj), site);
      var csCallSite := CSCallSite(c, site);
      var calleeContext := sel.instanceContext(csCallSite, o, callee);
      Enqueue(CSVar(calleeContext, prog.thisVar(callee)), {o});
      ghost var b := Snap();
      InvStep(prog, config, sel, a, b, u);
      var edge := CallEdge(prog.invokes(site).kind, csCallSite, CSMethod(calleeContext, callee));
      if edge !in callEdges {
        NewCallEdge(edge, Some(recv), u);
      }
      ExtendsGrows(b, Snap());
      assert o in Cov(b, CSVar(calleeContext, prog.thisVar(callee)));
    }

    /** Everything a new object o of variable x in context c brings: its field and array edges, and its calls. */
    method ReplayObject(c: Context, x: Var, o: CSObj, ghost u: Unfinished)
      requires Valid() && Inv(prog, config, sel, Snap(), u)
      modifies this
      ensures ObjWired(prog, sel, Snap(), c, x, o)
      ensures pt == old(pt) && entryMethods == old(entryMethods)
      ensures Inv(prog, config, sel, Snap(), u) && Extends(old(Snap()), Snap())
    {
      ghost var a := Snap();
      ReplayFields(c, x, o);
      InvStep(prog, config, sel, a, Snap(), u);
      ProcessCall(c, x, o, u);
    }

    /**
     * Drains the work list, for at most fuel entries: propagates each entry
     * and, when its pointer is a variable, replays the variable's field, array
     * and call statements for every object new to it.
     */
    method Analyze(fuel: nat) returns (drained: bool)
      requires Valid() && Inv(prog, config, sel, Snap(), NothingUnfinished)
      modifies this
      ensures drained <==> workList == []
      ensures old(reachable) <= reachable && old(callEdges) <= callEdges && entryMethods == old(entryMethods)
      ensures Inv(prog, config, sel, Snap(), NothingUnfinished)
    {
      var n := fuel;
      while workList != [] && n > 0
        invariant Inv(prog, config, sel, Snap(), NothingUnfinished)
        invariant old(reachable) <= reachable && old(callEdges) <= callEdges && entryMethods == old(entryMethods)
        decreases n
      {
        ghost var a := Snap();
        var entry := workList[0];
        workList := workList[1..];
        var delta, retyped := Propagate(entry.pointer, entry.objs);
        PollKeepsInv(prog, config, sel, a, Snap(), entry.pointer, entry.objs, retyped);
        if entry.pointer.CSVar? {
          var c, x := entry.pointer.ctx, entry.pointer.v;
          var rest := delta;
          while rest != {}
            invariant Inv(prog, config, sel, Snap(), Unfinished({}, {}, PairsOf(entry.pointer, rest)))
            invariant old(reachable) <= reachable && old(callEdges) <= callEdges && entryMethods == old(entryMethods)
            decreases rest
          {
            var o :| o in rest;
            ReplayObject(c, x, o, Unfinished({}, {}, PairsOf(entry.pointer, rest)));
            InvRelease(prog, config, sel, Snap(), Unfinished({}, {}, PairsOf(entry.pointer, rest)),
                       Unfinished({}, {}, PairsOf(entry.pointer, rest - {o})));
            rest := rest - {o};
          }
          InvRelease(prog, config, sel, Snap(), Unfinished({}, {}, PairsOf(entry.pointer, rest)), NothingUnfinished);
        } else {
          InvRelease(prog, config, sel, Snap(), Unfinished({}, {}, PairsOf(entry.pointer, delta)), NothingUnfinished);
        }
        n := n - 1;
      }
      drained := workList == [];
    }

    /** Starts the analysis afresh from the entry method, paired with the empty context. */
    method Initialize(entry: Method)
      requires Valid() && entry in prog.methods
      modifies this
      ensures entryMethods == {CSMethod(sel.empty, entry)} && CSMethod(sel.empty, entry) in reachable
      ensures Inv(prog, config, sel, Snap(), NothingUnfinished)
    {
      pt := map[];
      pfg := {};
      workList := [];
      reachable := {};
      callEdges := {};
      tfg := {};
      var csMethod := CSMethod(sel.empty, entry);
      entryMethods := {csMethod};
      AddReachable(csMethod, NothingUnfinished);
    }

    /**
     * Runs the analysis and then collects the taint flows. When the work
     * list drains within the fuel, the points-to sets, the call graph and
     * the TFG solve the analysis rules, and the flows are those the solution
     * reports; otherwise no flows are collected.
     */
    method Solve(entry: Method, fuel: nat) returns (drained: bool, flows: set<TaintFlow>)
      requires Valid() && entry in prog.methods
      modifies this
      ensures entryMethods == {CSMethod(sel.empty, entry)} && CSMethod(sel.empty, entry) in reachable
      ensures drained ==> workList == [] && IsSolution(prog, config, sel, entry, pt, reachable, callEdges, tfg)
      ensures drained ==> ArgsCover(prog, callEdges) && flows == ReportedFlows(prog, config, pt, callEdges)
      ensures !drained ==> flows == {}
    {
      Initialize(entry);
      drained := Analyze(fuel);
      flows := {};
      if drained {
        FixpointIsSolution(prog, config, sel, Snap(), entry);
        flows := CollectTaintFlows(prog, config, pt, callEdges);
      }
    }
  }
}
