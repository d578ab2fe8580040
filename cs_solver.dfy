/**
 * The context-sensitive Andersen-style pointer analysis of A6/Solver.java.
 *
 * It is the analysis of A5/Solver.java with every variable, object, method
 * and call site paired with a context. A reachable method is a (context,
 * method) pair; a new object gets the heap context the selector picks for it
 * in the allocating method; a call picks the callee's context from the call
 * site (and, for an instance call, the receiver object). Arguments and the
 * result are read in the caller's context, parameters and return variables
 * in the callee's.
 *
 * As for the insensitive solver, the invariant relates the state to the work
 * still outstanding, and at a drained work list it gives a solution of the
 * context-sensitive rules (IsSolution).
 */
module CsPta {
  import opened Wrappers
  import opened PtaIr
  import opened PtaCore
  import opened CsElements
  import Cha

  /** The solver's fields, as one value. */
  datatype State = State(pt: map<Pointer, set<CSObj>>, pfg: set<(Pointer, Pointer)>,
                         workList: seq<Entry<Pointer, CSObj>>, reachable: set<CSMethod>, callEdges: set<CallEdge>)

  /** What p points to once the work list is drained. */
  ghost function Cov(st: State, p: Pointer): set<CSObj>
  {
    Covered(st.pt, st.workList, p)
  }

  // ----- What has been done for a statement, a call edge and an object -----

  ghost predicate StmtDone(prog: Program, sel: Selector, st: State, csm: CSMethod, s: Stmt)
  {
    var c := csm.ctx;
    match s
    case New(x, o) => CSObj(sel.heapContext(csm, o), o) in Cov(st, CSVar(c, x))
    case Copy(x, y) => (CSVar(c, y), CSVar(c, x)) in st.pfg
    case StoreField(isStatic, f, y) => isStatic ==> (CSVar(c, y), StaticField(f)) in st.pfg
    case LoadField(isStatic, x, f) => isStatic ==> (StaticField(f), CSVar(c, x)) in st.pfg
    case Call(site) => prog.invokes(site).isStatic ==> StaticEdge(prog, sel, csm, site) in st.callEdges
    case Other => true
  }

  ghost predicate MethodDone(prog: Program, sel: Selector, st: State, csm: CSMethod)
  {
    forall s :: s in prog.body(csm.meth) ==> StmtDone(prog, sel, st, csm, s)
  }

  ghost predicate EdgeWired(prog: Program, st: State, e: CallEdge)
  {
    e.callee in st.reachable && CallFlow(prog, e) <= st.pfg
  }

  /** The call at site on o, from a receiver variable in context c, has its edge, and o is owed to the callee's `this`. */
  ghost predicate CallWired(prog: Program, sel: Selector, st: State, c: Context, site: CallSiteId, o: CSObj)
  {
    var e := InstanceEdge(prog, sel, c, site, o);
    && e in st.callEdges
    && o in Cov(st, CSVar(e.callee.ctx, prog.thisVar(e.callee.meth)))
  }

  ghost predicate ObjWired(prog: Program, sel: Selector, st: State, c: Context, x: Var, o: CSObj)
  {
    && FieldFlow(prog, c, x, o) <= st.pfg
    && forall site :: site in prog.invokesOn(x) ==> CallWired(prog, sel, st, c, site, o)
  }

  /** The methods, call edges and (variable, object) pairs whose wiring is under way. */
  datatype Unfinished = Unfinished(methods: set<CSMethod>, edges: set<CallEdge>, objs: set<(Pointer, CSObj)>)

  const NothingUnfinished := Unfinished({}, {}, {})

  /**
   * The solver's invariant: every reachable pair is drawn from the selector's
   * contexts and the program's methods, points-to sets flow along the PFG up
   * to what the work list owes, and every reachable method, call edge and
   * pointed-to object is wired, except those whose wiring is under way.
   */
  ghost predicate Inv(prog: Program, sel: Selector, st: State, u: Unfinished)
  {
    && st.reachable <= Universe(prog, sel)
    && FlowsAlong(st.pt, st.pfg, st.workList)
    && (forall m :: m in st.reachable && m !in u.methods ==> MethodDone(prog, sel, st, m))
    && (forall e :: e in st.callEdges && e !in u.edges ==> EdgeWired(prog, st, e))
    && (forall c: Context, x: Var, o: CSObj :: o in PtOf(st.pt, CSVar(c, x)) && (CSVar(c, x), o) !in u.objs
          ==> ObjWired(prog, sel, st, c, x, o))
  }

  /** b has every edge, method and call edge of a, and covers at least as much. */
  ghost predicate Grows(a: State, b: State)
  {
    && a.pfg <= b.pfg && a.reachable <= b.reachable && a.callEdges <= b.callEdges
    && CoveredGrows(a.pt, a.workList, b.pt, b.workList)
  }

  /** b is a after adding edges, methods and call edges and appending to the work list. */
  ghost predicate Extends(a: State, b: State)
  {
    && a.pfg <= b.pfg && a.reachable <= b.reachable && a.callEdges <= b.callEdges
    && b.pt == a.pt && a.workList <= b.workList
  }

  lemma ExtendsGrows(a: State, b: State)
    requires Extends(a, b)
    ensures Grows(a, b)
  {
    PrefixCoveredGrows(a.pt, a.workList, b.workList);
  }

  lemma ExtendsTrans(a: State, b: State, c: State)
    requires Extends(a, b) && Extends(b, c)
    ensures Extends(a, c)
  {
  }

  lemma StmtDoneGrows(prog: Program, sel: Selector, a: State, b: State, csm: CSMethod, s: Stmt)
    requires Grows(a, b) && StmtDone(prog, sel, a, csm, s)
    ensures StmtDone(prog, sel, b, csm, s)
  {
  }

  /** The first n statements of stmts are done. */
  ghost predicate PrefixDone(prog: Program, sel: Selector, st: State, csm: CSMethod, stmts: seq<Stmt>, n: nat)
    requires n <= |stmts|
  {
    n == 0 || (PrefixDone(prog, sel, st, csm, stmts, n - 1) && StmtDone(prog, sel, st, csm, stmts[n - 1]))
  }

  lemma {:induction false} PrefixDoneGrows(prog: Program, sel: Selector, a: State, b: State, csm: CSMethod,
                                           stmts: seq<Stmt>, n: nat)
    requires n <= |stmts| && Grows(a, b) && PrefixDone(prog, sel, a, csm, stmts, n)
    ensures PrefixDone(prog, sel, b, csm, stmts, n)
    decreases n
  {
    if n > 0 {
      PrefixDoneGrows(prog, sel, a, b, csm, stmts, n - 1);
      StmtDoneGrows(prog, sel, a, b, csm, stmts[n - 1]);
    }
  }

  lemma {:induction false} PrefixDoneAll(prog: Program, sel: Selector, st: State, csm: CSMethod, stmts: seq<Stmt>, n: nat)
    requires n <= |stmts| && PrefixDone(prog, sel, st, csm, stmts, n)
    ensures forall s :: s in stmts[..n] ==> StmtDone(prog, sel, st, csm, s)
    decreases n
  {
    if n > 0 {
      PrefixDoneAll(prog, sel, st, csm, stmts, n - 1);
      assert stmts[..n] == stmts[..n - 1] + [stmts[n - 1]];
    }
  }

  lemma ObjWiredGrows(prog: Program, sel: Selector, a: State, b: State, c: Context, x: Var, o: CSObj)
    requires Grows(a, b) && ObjWired(prog, sel, a, c, x, o)
    ensures ObjWired(prog, sel, b, c, x, o)
  {
    forall site | site in prog.invokesOn(x)
      ensures CallWired(prog, sel, b, c, site, o)
    {
      assert CallWired(prog, sel, a, c, site, o);
    }
  }

  /**
   * Growth keeps the invariant, given that the flow holds in the new state
   * and whatever it adds is listed as unfinished.
   */
  lemma InvGrows(prog: Program, sel: Selector, a: State, b: State, u: Unfinished)
    requires Inv(prog, sel, a, u) && Grows(a, b)
    requires b.reachable <= Universe(prog, sel) && FlowsAlong(b.pt, b.pfg, b.workList)
    requires b.reachable - a.reachable <= u.methods && b.callEdges - a.callEdges <= u.edges
    requires forall c: Context, x: Var, o: CSObj :: o in PtOf(b.pt, CSVar(c, x)) && (CSVar(c, x), o) !in u.objs
               ==> o in PtOf(a.pt, CSVar(c, x))
    ensures Inv(prog, sel, b, u)
  {
    forall m | m in b.reachable && m !in u.methods
      ensures MethodDone(prog, sel, b, m)
    {
      forall s | s in prog.body(m.meth)
        ensures StmtDone(prog, sel, b, m, s)
      {
        StmtDoneGrows(prog, sel, a, b, m, s);
      }
    }
    forall c: Context, x: Var, o: CSObj | o in PtOf(b.pt, CSVar(c, x)) && (CSVar(c, x), o) !in u.objs
      ensures ObjWired(prog, sel, b, c, x, o)
    {
      ObjWiredGrows(prog, sel, a, b, c, x, o);
    }
  }

  /** Work under way that has been finished can be taken off the unfinished list. */
  lemma InvRelease(prog: Program, sel: Selector, st: State, u: Unfinished, u': Unfinished)
    requires Inv(prog, sel, st, u)
    requires forall m :: m in u.methods && m !in u'.methods && m in st.reachable ==> MethodDone(prog, sel, st, m)
    requires forall e :: e in u.edges && e !in u'.edges && e in st.callEdges ==> EdgeWired(prog, st, e)
    requires forall c: Context, x: Var, o: CSObj ::
               (CSVar(c, x), o) in u.objs && (CSVar(c, x), o) !in u'.objs && o in PtOf(st.pt, CSVar(c, x))
               ==> ObjWired(prog, sel, st, c, x, o)
    ensures Inv(prog, sel, st, u')
  {
  }

  /** A step that only adds PFG edges and work-list entries, keeping the flow, keeps the invariant. */
  lemma InvStep(prog: Program, sel: Selector, a: State, b: State, u: Unfinished)
    requires Inv(prog, sel, a, u) && Extends(a, b) && FlowsAlong(b.pt, b.pfg, b.workList)
    requires b.reachable == a.reachable && b.callEdges == a.callEdges
    ensures Inv(prog, sel, b, u)
  {
    ExtendsGrows(a, b);
    InvGrows(prog, sel, a, b, u);
  }

  /** Marking m reachable keeps the invariant while m's statements are under way, and shrinks the pairs left. */
  lemma MarkReachable(prog: Program, sel: Selector, a: State, m: CSMethod, u: Unfinished)
    requires Inv(prog, sel, a, u) && m in Universe(prog, sel) && m !in a.reachable
    ensures Inv(prog, sel, a.(reachable := a.reachable + {m}), u.(methods := u.methods + {m}))
    ensures Extends(a, a.(reachable := a.reachable + {m}))
    ensures |Universe(prog, sel) - (a.reachable + {m})| < |Universe(prog, sel) - a.reachable|
  {
    var b := a.(reachable := a.reachable + {m});
    assert Universe(prog, sel) - b.reachable == (Universe(prog, sel) - a.reachable) - {m};
    ExtendsGrows(a, b);
    InvGrows(prog, sel, a, b, u.(methods := u.methods + {m}));
  }

  /** Once every statement of m is done, m is no longer under way. */
  lemma FinishReachable(prog: Program, sel: Selector, st: State, m: CSMethod, u: Unfinished)
    requires Inv(prog, sel, st, u.(methods := u.methods + {m}))
    requires PrefixDone(prog, sel, st, m, prog.body(m.meth), |prog.body(m.meth)|)
    ensures Inv(prog, sel, st, u)
  {
    var stmts := prog.body(m.meth);
    PrefixDoneAll(prog, sel, st, m, stmts, |stmts|);
    assert stmts[..|stmts|] == stmts;
    InvRelease(prog, sel, st, u.(methods := u.methods + {m}), u);
  }

  // ----- The analysis rules, stated on the points-to sets alone -----

  ghost function PtsOf(pt: map<Pointer, set<CSObj>>, c: Context, v: Var): set<CSObj>
  {
    PtOf(pt, CSVar(c, v))
  }

  ghost predicate StmtRule(prog: Program, sel: Selector, pt: map<Pointer, set<CSObj>>, callEdges: set<CallEdge>,
                           csm: CSMethod, s: Stmt)
  {
    var c := csm.ctx;
    match s
    case New(x, o) => CSObj(sel.heapContext(csm, o), o) in PtsOf(pt, c, x)
    case Copy(x, y) => PtsOf(pt, c, y) <= PtsOf(pt, c, x)
    case StoreField(isStatic, f, y) => isStatic ==> PtsOf(pt, c, y) <= PtOf(pt, StaticField(f))
    case LoadField(isStatic, x, f) => isStatic ==> PtOf(pt, StaticField(f)) <= PtsOf(pt, c, x)
    case Call(site) => prog.invokes(site).isStatic ==> StaticEdge(prog, sel, csm, site) in callEdges
    case Other => true
  }

  /** Along a call edge, arguments flow to parameters and return variables to the result, each in its own context. */
  ghost predicate EdgeRule(prog: Program, pt: map<Pointer, set<CSObj>>, reachable: set<CSMethod>, e: CallEdge)
  {
    var inv := prog.invokes(e.callSite.site);
    var ps := prog.params(e.callee.meth);
    var caller, callee := e.callSite.ctx, e.callee.ctx;
    && e.callee in reachable
    && (forall j :: 0 <= j < |ps| && j < |inv.args| ==> PtsOf(pt, caller, inv.args[j]) <= PtsOf(pt, callee, ps[j]))
    && (inv.result.Some? ==>
          forall r :: r in prog.returnVars(e.callee.meth) ==> PtsOf(pt, callee, r) <= PtsOf(pt, caller, inv.result.value))
  }

  /** What an object o of variable x in context c brings: field and array flows, and its calls. */
  ghost predicate ObjRule(prog: Program, sel: Selector, pt: map<Pointer, set<CSObj>>, callEdges: set<CallEdge>,
                          c: Context, x: Var, o: CSObj)
  {
    && (forall s :: s in prog.storeFields(x) ==> PtsOf(pt, c, s.rhs) <= PtOf(pt, InstanceField(o, s.field)))
    && (forall l :: l in prog.loadFields(x) ==> PtOf(pt, InstanceField(o, l.field)) <= PtsOf(pt, c, l.lhs))
    && (forall y :: y in prog.storeArrays(x) ==> PtsOf(pt, c, y) <= PtOf(pt, ArrayIndex(o)))
    && (forall y :: y in prog.loadArrays(x) ==> PtOf(pt, ArrayIndex(o)) <= PtsOf(pt, c, y))
    && (forall site :: site in prog.invokesOn(x) ==>
          var e := InstanceEdge(prog, sel, c, site, o);
          e in callEdges && o in PtsOf(pt, e.callee.ctx, prog.thisVar(e.callee.meth)))
  }

  /**
   * Points-to sets and a call graph closed under every rule of the analysis,
   * from the entry method in the empty context.
   */
  ghost predicate IsSolution(prog: Program, sel: Selector, entry: Method, pt: map<Pointer, set<CSObj>>,
                             reachable: set<CSMethod>, callEdges: set<CallEdge>)
  {
    && CSMethod(sel.empty, entry) in reachable
    && (forall m, s :: m in reachable && s in prog.body(m.meth) ==> StmtRule(prog, sel, pt, callEdges, m, s))
    && (forall e :: e in callEdges ==> EdgeRule(prog, pt, reachable, e))
    && (forall c, x, o :: o in PtsOf(pt, c, x) ==> ObjRule(prog, sel, pt, callEdges, c, x, o))
  }

  lemma StmtRuleAtFixpoint(prog: Program, sel: Selector, st: State, csm: CSMethod, s: Stmt)
    requires StmtDone(prog, sel, st, csm, s) && FlowsAlong(st.pt, st.pfg, []) && st.workList == []
    ensures StmtRule(prog, sel, st.pt, st.callEdges, csm, s)
  {
    var none: seq<Entry<Pointer, CSObj>> := [];
    assert forall p :: Pending(none, p) == {};
    FlowsAlongAtFixpoint(st.pt, st.pfg);
  }

  lemma EdgeRuleAtFixpoint(prog: Program, st: State, e: CallEdge)
    requires EdgeWired(prog, st, e) && FlowsAlong(st.pt, st.pfg, [])
    ensures EdgeRule(prog, st.pt, st.reachable, e)
  {
    FlowsAlongAtFixpoint(st.pt, st.pfg);
    var inv := prog.invokes(e.callSite.site);
    var ps := prog.params(e.callee.meth);
    var caller, callee := e.callSite.ctx, e.callee.ctx;
    forall j | 0 <= j < |ps| && j < |inv.args|
      ensures PtsOf(st.pt, caller, inv.args[j]) <= PtsOf(st.pt, callee, ps[j])
    {
      ArgEdgesMembers(caller, inv.args, callee, ps, Min(|inv.args|, |ps|), (CSVar(caller, inv.args[j]), CSVar(callee, ps[j])));
      assert (CSVar(caller, inv.args[j]), CSVar(callee, ps[j])) in CallFlow(prog, e);
    }
    if inv.result.Some? {
      var rets := prog.returnVars(e.callee.meth);
      var r := inv.result.value;
      forall ret | ret in rets
        ensures PtsOf(st.pt, callee, ret) <= PtsOf(st.pt, caller, r)
      {
        var j :| 0 <= j < |rets| && rets[j] == ret;
        RetEdgesMembers(callee, rets, caller, r, |rets|, (CSVar(callee, rets[j]), CSVar(caller, r)));
        assert (CSVar(callee, rets[j]), CSVar(caller, r)) in CallFlow(prog, e);
      }
    }
  }

  lemma ObjRuleAtFixpoint(prog: Program, sel: Selector, st: State, c: Context, x: Var, o: CSObj)
    requires ObjWired(prog, sel, st, c, x, o) && FlowsAlong(st.pt, st.pfg, []) && st.workList == []
    ensures ObjRule(prog, sel, st.pt, st.callEdges, c, x, o)
  {
    var none: seq<Entry<Pointer, CSObj>> := [];
    assert forall p :: Pending(none, p) == {};
    FlowsAlongAtFixpoint(st.pt, st.pfg);
    var stores, loads := prog.storeFields(x), prog.loadFields(x);
    var arrayStores, arrayLoads := prog.storeArrays(x), prog.loadArrays(x);
    forall s | s in stores
      ensures PtsOf(st.pt, c, s.rhs) <= PtOf(st.pt, InstanceField(o, s.field))
    {
      StoreEdgesMembers(c, stores, o, |stores|, (CSVar(c, s.rhs), InstanceField(o, s.field)));
      assert (CSVar(c, s.rhs), InstanceField(o, s.field)) in FieldFlow(prog, c, x, o);
    }
    forall l | l in loads
      ensures PtOf(st.pt, InstanceField(o, l.field)) <= PtsOf(st.pt, c, l.lhs)
    {
      LoadEdgesMembers(c, loads, o, |loads|, (InstanceField(o, l.field), CSVar(c, l.lhs)));
      assert (InstanceField(o, l.field), CSVar(c, l.lhs)) in FieldFlow(prog, c, x, o);
    }
    forall y | y in arrayStores
      ensures PtsOf(st.pt, c, y) <= PtOf(st.pt, ArrayIndex(o))
    {
      ArrayStoreEdgesMembers(c, arrayStores, o, |arrayStores|, (CSVar(c, y), ArrayIndex(o)));
      assert (CSVar(c, y), ArrayIndex(o)) in FieldFlow(prog, c, x, o);
    }
    forall y | y in arrayLoads
      ensures PtOf(st.pt, ArrayIndex(o)) <= PtsOf(st.pt, c, y)
    {
      ArrayLoadEdgesMembers(c, arrayLoads, o, |arrayLoads|, (ArrayIndex(o), CSVar(c, y)));
      assert (ArrayIndex(o), CSVar(c, y)) in FieldFlow(prog, c, x, o);
    }
    forall site | site in prog.invokesOn(x)
      ensures var e := InstanceEdge(prog, sel, c, site, o);
              o in PtsOf(st.pt, e.callee.ctx, prog.thisVar(e.callee.meth))
    {
      assert CallWired(prog, sel, st, c, site, o);
    }
  }

  /**
   * The solver's fixpoint: with nothing unfinished and nothing left on the
   * work list, the points-to sets and the call graph solve the rules.
   */
  lemma FixpointIsSolution(prog: Program, sel: Selector, st: State, entry: Method)
    requires Inv(prog, sel, st, NothingUnfinished) && st.workList == [] && CSMethod(sel.empty, entry) in st.reachable
    ensures IsSolution(prog, sel, entry, st.pt, st.reachable, st.callEdges)
  {
    forall m, s | m in st.reachable && s in prog.body(m.meth)
      ensures StmtRule(prog, sel, st.pt, st.callEdges, m, s)
    {
      assert MethodDone(prog, sel, st, m);
      StmtRuleAtFixpoint(prog, sel, st, m, s);
    }
    forall e | e in st.callEdges
      ensures EdgeRule(prog, st.pt, st.reachable, e)
    {
      EdgeRuleAtFixpoint(prog, st, e);
    }
    forall c, x, o | o in PtsOf(st.pt, c, x)
      ensures ObjRule(prog, sel, st.pt, st.callEdges, c, x, o)
    {
      ObjRuleAtFixpoint(prog, sel, st, c, x, o);
    }
  }

  /**
   * Polling the head entry (p, objs) and propagating it keeps the invariant,
   * with the objects new to p left to be wired when p is a variable.
   */
  lemma PollKeepsInv(prog: Program, sel: Selector, a: State, b: State, p: Pointer, objs: set<CSObj>)
    requires Inv(prog, sel, a, NothingUnfinished) && a.workList != [] && a.workList[0] == Entry(p, objs)
    requires b.pt == a.pt[p := PtOf(a.pt, p) + objs]
    requires a.workList[1..] <= b.workList
    requires QueuedForSuccs(a.pfg, p, Delta(a.pt, p, objs), b.workList[|a.workList| - 1..])
    requires b.pfg == a.pfg && b.reachable == a.reachable && b.callEdges == a.callEdges
    ensures Inv(prog, sel, b, Unfinished({}, {}, PairsOf(p, Delta(a.pt, p, objs))))
  {
    PollGrows(a, b, p, objs);
    var u := Unfinished({}, {}, PairsOf(p, Delta(a.pt, p, objs)));
    InvWithPendingObjs(prog, sel, a, u.objs);
    NewObjsArePairs(a.pt, p, objs);
    InvGrows(prog, sel, a, b, u);
  }

  /** Polling the head entry (p, objs) and propagating it: the state grows and keeps every flow. */
  lemma PollGrows(a: State, b: State, p: Pointer, objs: set<CSObj>)
    requires FlowsAlong(a.pt, a.pfg, a.workList)
    requires a.workList != [] && a.workList[0] == Entry(p, objs)
    requires b.pt == a.pt[p := PtOf(a.pt, p) + objs]
    requires a.workList[1..] <= b.workList
    requires QueuedForSuccs(a.pfg, p, Delta(a.pt, p, objs), b.workList[|a.workList| - 1..])
    requires b.pfg == a.pfg && b.reachable == a.reachable && b.callEdges == a.callEdges
    ensures Grows(a, b) && FlowsAlong(b.pt, b.pfg, b.workList)
  {
    var rest := a.workList[1..];
    var added := b.workList[|rest|..];
    assert a.workList == [Entry(p, objs)] + rest;
    assert b.workList == rest + added;
    PropagateKeepsFlow(a.pt, a.pfg, rest, p, objs, added);
  }

  /** Invariant that holds with nothing unfinished still holds with objects left to be wired. */
  lemma InvWithPendingObjs(prog: Program, sel: Selector, st: State, objs: set<(Pointer, CSObj)>)
    requires Inv(prog, sel, st, NothingUnfinished)
    ensures Inv(prog, sel, st, Unfinished({}, {}, objs))
  {
  }

  class Solver {
    const prog: Program
    const sel: Selector
    var pt: map<Pointer, set<CSObj>>
    var pfg: set<(Pointer, Pointer)>
    var workList: seq<Entry<Pointer, CSObj>>
    var reachable: set<CSMethod>
    var callEdges: set<CallEdge>
    var entryMethods: set<CSMethod>

    ghost function Snap(): State
      reads this
    {
      State(pt, pfg, workList, reachable, callEdges)
    }

    ghost predicate Flows()
      reads this
    {
      FlowsAlong(pt, pfg, workList)
    }

    ghost predicate Valid()
      reads this
    {
      WellFormed(prog) && SelectorWellFormed(sel)
    }

    constructor(prog: Program, sel: Selector)
      ensures this.prog == prog && this.sel == sel
      ensures pt == map[] && pfg == {} && workList == [] && reachable == {} && callEdges == {} && entryMethods == {}
    {
      this.prog := prog;
      this.sel := sel;
      pt := map[];
      pfg := {};
      workList := [];
      reachable := {};
      callEdges := {};
      entryMethods := {};
    }

    /** Adds the edge s -> t; only a new edge queues what s points to at t, and only if that is not empty. */
    method AddPFGEdge(s: Pointer, t: Pointer)
      requires Flows()
      modifies this
      ensures pfg == old(pfg) + {(s, t)}
      ensures workList == old(workList)
        + (if (s, t) !in old(pfg) && PtOf(pt, s) != {} then [Entry(t, PtOf(pt, s))] else [])
      ensures pt == old(pt) && reachable == old(reachable) && callEdges == old(callEdges)
      ensures entryMethods == old(entryMethods)
      ensures Flows()
    {
      ghost var g, wl := pfg, workList;
      if (s, t) !in pfg {
        pfg := pfg + {(s, t)};
        if PtOf(pt, s) != {} {
          workList := workList + [Entry(t, PtOf(pt, s))];
        }
      }
      AddEdgeKeepsFlow(pt, g, wl, s, t);
    }

    /** Queues objs at p. */
    method Enqueue(p: Pointer, objs: set<CSObj>)
      requires Flows()
      modifies this
      ensures workList == old(workList) + [Entry(p, objs)]
      ensures pt == old(pt) && pfg == old(pfg) && reachable == old(reachable) && callEdges == old(callEdges)
      ensures entryMethods == old(entryMethods)
      ensures objs <= Covered(pt, workList, p)
      ensures Flows()
    {
      ghost var wl := workList;
      workList := workList + [Entry(p, objs)];
      EnqueueCovers(pt, wl, p, objs);
      FlowsAlongAppend(pt, pfg, wl, [Entry(p, objs)]);
    }

    /** Adds a_i -> p_i for every argument, in the caller's context c, and parameter, in the callee's context c'. */
    method AddArgEdges(c: Context, args: seq<Var>, c': Context, params: seq<Var>)
      requires |args| == |params|
      requires Flows()
      modifies this
      ensures pfg == old(pfg) + ArgEdges(c, args, c', params, |params|)
      ensures pt == old(pt) && old(workList) <= workList
      ensures QueuedForNewEdges(pt, old(pfg), pfg, workList[|old(workList)|..])
      ensures reachable == old(reachable) && callEdges == old(callEdges) && entryMethods == old(entryMethods)
      ensures Flows()
    {
      for i := 0 to |params|
        invariant pfg == old(pfg) + ArgEdges(c, args, c', params, i)
        invariant pt == old(pt) && old(workList) <= workList
        invariant QueuedForNewEdges(pt, old(pfg), pfg, workList[|old(workList)|..])
        invariant reachable == old(reachable) && callEdges == old(callEdges) && entryMethods == old(entryMethods)
        invariant Flows()
      {
        ghost var g, w := pfg, workList;
        AddPFGEdge(CSVar(c, args[i]), CSVar(c', params[i]));
        QueuedForNewEdgesStep(pt, old(pfg), g, old(workList), w, workList, CSVar(c, args[i]), CSVar(c', params[i]));
      }
    }

    /** Adds ret -> r for every return variable ret, in the callee's context c', and the result r, in the caller's context c. */
    method AddReturnEdges(c': Context, rets: seq<Var>, c: Context, r: Var)
      requires Flows()
      modifies this
      ensures pfg == old(pfg) + RetEdges(c', rets, c, r, |rets|)
      ensures pt == old(pt) && old(workList) <= workList
      ensures QueuedForNewEdges(pt, old(pfg), pfg, workList[|old(workList)|..])
      ensures reachable == old(reachable) && callEdges == old(callEdges) && entryMethods == old(entryMethods)
      ensures Flows()
    {
      for i := 0 to |rets|
        invariant pfg == old(pfg) + RetEdges(c', rets, c, r, i)
        invariant pt == old(pt) && old(workList) <= workList
        invariant QueuedForNewEdges(pt, old(pfg), pfg, workList[|old(workList)|..])
        invariant reachable == old(reachable) && callEdges == old(callEdges) && entryMethods == old(entryMethods)
        invariant Flows()
      {
        ghost var g, w := pfg, workList;
        AddPFGEdge(CSVar(c', rets[i]), CSVar(c, r));
        QueuedForNewEdgesStep(pt, old(pfg), g, old(workList), w, workList, CSVar(c', rets[i]), CSVar(c, r));
      }
    }

    /** Adds the argument-to-parameter edges of a call edge and, when the call has a result, its return edges. */
    method ConnectCall(e: CallEdge)
      requires |prog.invokes(e.callSite.site).args| == |prog.params(e.callee.meth)|
      requires Flows()
      modifies this
      ensures pfg == old(pfg) + CallFlow(prog, e)
      ensures pt == old(pt) && old(workList) <= workList
      ensures QueuedForNewEdges(pt, old(pfg), pfg, workList[|old(workList)|..])
      ensures reachable == old(reachable) && callEdges == old(callEdges) && entryMethods == old(entryMethods)
      ensures Flows()
    {
      var inv := prog.invokes(e.callSite.site);
      AddArgEdges(e.callSite.ctx, inv.args, e.callee.ctx, prog.params(e.callee.meth));
      if inv.result.Some? {
        ghost var g1, w1 := pfg, workList;
        AddReturnEdges(e.callee.ctx, prog.returnVars(e.callee.meth), e.callSite.ctx, inv.result.value);
        QueuedForNewEdgesChain(pt, old(pfg), g1, pfg, old(workList), w1, workList);
      }
    }

    /** Makes the pair m reachable and wires its statements, the first time only. */
    method AddReachable(m: CSMethod, ghost u: Unfinished)
      requires Valid() && m in Universe(prog, sel) && Inv(prog, sel, Snap(), u)
      modifies this
      decreases |Universe(prog, sel) - reachable|, 0
      ensures m in reachable && entryMethods == old(entryMethods)
      ensures old(m in reachable) ==> Snap() == old(Snap())
      ensures Inv(prog, sel, Snap(), u) && Extends(old(Snap()), Snap())
    {
      if m !in reachable {
        ghost var a := Snap();
        reachable := reachable + {m};
        MarkReachable(prog, sel, a, m, u);
        ghost var b := Snap();
        VisitBody(m, u.(methods := u.methods + {m}));
        FinishReachable(prog, sel, Snap(), m, u);
        ExtendsTrans(a, b, Snap());
      }
    }

    /** Visits every statement of m's method in m's context, in order. */
    method VisitBody(m: CSMethod, ghost u: Unfinished)
      requires Valid() && Inv(prog, sel, Snap(), u)
      modifies this
      decreases |Universe(prog, sel) - reachable|, 3
      ensures PrefixDone(prog, sel, Snap(), m, prog.body(m.meth), |prog.body(m.meth)|)
      ensures |Universe(prog, sel) - reachable| <= |Universe(prog, sel) - old(reachable)|
      ensures entryMethods == old(entryMethods)
      ensures Inv(prog, sel, Snap(), u) && Extends(old(Snap()), Snap())
    {
      var stmts := prog.body(m.meth);
      for i := 0 to |stmts|
        invariant entryMethods == old(entryMethods)
        invariant |Universe(prog, sel) - reachable| <= |Universe(prog, sel) - old(reachable)|
        invariant Inv(prog, sel, Snap(), u) && Extends(old(Snap()), Snap())
        invariant PrefixDone(prog, sel, Snap(), m, stmts, i)
      {
        ghost var b := Snap();
        VisitStmt(m, stmts[i], u);
        ExtendsGrows(b, Snap());
        DiffShrinks(Universe(prog, sel), b.reachable, reachable);
        PrefixDoneGrows(prog, sel, b, Snap(), m, stmts, i);
      }
    }

    /**
     * The statement visitor, for statements of csm: New queues its object,
     * paired with the heap context, at the left-hand side; Copy and static
     * field accesses add an edge; a static call adds its STATIC call edge,
     * wiring the callee only when that edge is new.
     */
    method VisitStmt(csm: CSMethod, s: Stmt, ghost u: Unfinished)
      requires Valid() && Inv(prog, sel, Snap(), u)
      modifies this
      decreases |Universe(prog, sel) - reachable|, 2
      ensures StmtDone(prog, sel, Snap(), csm, s)
      ensures s.New? ==> Snap() == old(Snap()).(workList := old(workList)
                + [Entry(CSVar(csm.ctx, s.lhs), {CSObj(sel.heapContext(csm, s.obj), s.obj)})])
      ensures s.Copy? ==> pfg == old(pfg) + {(CSVar(csm.ctx, s.rhs), CSVar(csm.ctx, s.lhs))} && pt == old(pt)
      ensures s.StoreField? && s.isStatic ==> pfg == old(pfg) + {(CSVar(csm.ctx, s.rhs), StaticField(s.field))} && pt == old(pt)
      ensures s.LoadField? && s.isStatic ==> pfg == old(pfg) + {(StaticField(s.field), CSVar(csm.ctx, s.lhs))} && pt == old(pt)
      ensures s.Other? || (s.StoreField? && !s.isStatic) || (s.LoadField? && !s.isStatic) ==> Snap() == old(Snap())
      ensures s.Call? && !prog.invokes(s.site).isStatic ==> Snap() == old(Snap())
      ensures s.Call? && StaticEdge(prog, sel, csm, s.site) in old(callEdges) ==> Snap() == old(Snap())
      ensures !s.Call? ==> reachable == old(reachable) && callEdges == old(callEdges)
      ensures (s.Copy? || (s.StoreField? && s.isStatic) || (s.LoadField? && s.isStatic)) ==>
                old(workList) <= workList && QueuedForNewEdges(pt, old(pfg), pfg, workList[|old(workList)|..])
      ensures entryMethods == old(entryMethods)
      ensures Inv(prog, sel, Snap(), u) && Extends(old(Snap()), Snap())
    {
      ghost var a := Snap();
      var context := csm.ctx;
      match s
      case New(x, o) =>
        var heapContext := sel.heapContext(csm, o);
        Enqueue(CSVar(context, x), {CSObj(heapContext, o)});
        InvStep(prog, sel, a, Snap(), u);
      case Copy(x, y) =>
        AddPFGEdge(CSVar(context, y), CSVar(context, x));
        QueuedForAddedEdge(pt, a.pfg, a.workList, workList, CSVar(context, y), CSVar(context, x));
        InvStep(prog, sel, a, Snap(), u);
      case StoreField(isStatic, f, y) =>
        if isStatic {
          AddPFGEdge(CSVar(context, y), StaticField(f));
          QueuedForAddedEdge(pt, a.pfg, a.workList, workList, CSVar(context, y), StaticField(f));
          InvStep(prog, sel, a, Snap(), u);
        }
      case LoadField(isStatic, x, f) =>
        if isStatic {
          AddPFGEdge(StaticField(f), CSVar(context, x));
          QueuedForAddedEdge(pt, a.pfg, a.workList, workList, StaticField(f), CSVar(context, x));
          InvStep(prog, sel, a, Snap(), u);
        }
      case Call(site) =>
        if prog.invokes(site).isStatic {
          var callee := prog.resolveCallee(None, site);
          var csCallSite := CSCallSite(context, site);
          var calleeContext := sel.staticContext(csCallSite, callee);
          var edge := CallEdge(Cha.CallKind.STATIC, csCallSite, CSMethod(calleeContext, callee));
          if edge !in callEdges {
            NewCallEdge(edge, u);
          }
        }
      case Other =>
    }

    /** Adds a new call edge, makes its callee pair reachable and connects its arguments and results. */
    method NewCallEdge(edge: CallEdge, ghost u: Unfinished)
      requires Valid() && Inv(prog, sel, Snap(), u)
      requires edge.callee in Universe(prog, sel)
      requires |prog.invokes(edge.callSite.site).args| == |prog.params(edge.callee.meth)|
      requires edge !in callEdges
      modifies this
      decreases |Universe(prog, sel) - reachable|, 1
      ensures old(callEdges) + {edge} <= callEdges
      ensures entryMethods == old(entryMethods)
      ensures Inv(prog, sel, Snap(), u) && Extends(old(Snap()), Snap())
    {
      ghost var a := Snap();
      callEdges := callEdges + {edge};
      ghost var u' := u.(edges := u.edges + {edge});
      ExtendsGrows(a, Snap());
      InvGrows(prog, sel, a, Snap(), u');
      AddReachable(edge.callee, u');
      ghost var b := Snap();
      ConnectCall(edge);
      InvStep(prog, sel, b, Snap(), u');
      assert EdgeWired(prog, Snap(), edge);
      InvRelease(prog, sel, Snap(), u', u);
    }

    /**
     * Adds objs to the points-to set of p and returns the objects that were
     * new there; when any were, queues them at every successor of p.
     */
    method Propagate(p: Pointer, objs: set<CSObj>) returns (delta: set<CSObj>)
      modifies this
      ensures delta == Delta(old(pt), p, objs)
      ensures pt == old(pt)[p := PtOf(old(pt), p) + objs]
      ensures old(workList) <= workList
      ensures QueuedForSuccs(pfg, p, delta, workList[|old(workList)|..])
      ensures pfg == old(pfg) && reachable == old(reachable) && callEdges == old(callEdges)
      ensures entryMethods == old(entryMethods)
    {
      delta := {};
      pt := pt[p := PtOf(pt, p)];
      var rest := objs;
      while rest != {}
        invariant rest <= objs
        invariant p in pt && pt == old(pt)[p := pt[p]]
        invariant pt[p] == PtOf(old(pt), p) + (objs - rest)
        invariant delta == (objs - rest) - PtOf(old(pt), p)
        invariant workList == old(workList) && pfg == old(pfg)
        invariant reachable == old(reachable) && callEdges == old(callEdges) && entryMethods == old(entryMethods)
        decreases rest
      {
        var o :| o in rest;
        if o !in pt[p] {
          pt := pt[p := pt[p] + {o}];
          delta := delta + {o};
        }
        rest := rest - {o};
      }
      assert objs - rest == objs;
      if delta != {} {
        var succs := Succs(pfg, p);
        ghost var added: seq<Entry<Pointer, CSObj>> := [];
        while succs != {}
          invariant succs <= Succs(pfg, p)
          invariant workList == old(workList) + added
          invariant forall e :: e in added <==> e.objs == delta && e.pointer in Succs(pfg, p) - succs
          invariant pt == old(pt)[p := PtOf(old(pt), p) + objs]
          invariant pfg == old(pfg) && reachable == old(reachable) && callEdges == old(callEdges)
          invariant entryMethods == old(entryMethods)
          decreases succs
        {
          var t :| t in succs;
          workList := workList + [Entry(t, delta)];
          added := added + [Entry(t, delta)];
          succs := succs - {t};
        }
        assert workList[|old(workList)|..] == added;
      } else {
        assert workList[|old(workList)|..] == [];
      }
    }

    /** y -> o.f, y in context c, for every x.f = y. */
    method AddStoreEdges(c: Context, stores: seq<FieldStore>, o: CSObj)
      requires Flows()
      modifies this
      ensures pfg == old(pfg) + StoreEdges(c, stores, o, |stores|)
      ensures pt == old(pt) && old(workList) <= workList
      ensures QueuedForNewEdges(pt, old(pfg), pfg, workList[|old(workList)|..])
      ensures reachable == old(reachable) && callEdges == old(callEdges) && entryMethods == old(entryMethods)
      ensures Flows()
    {
      for i := 0 to |stores|
        invariant pfg == old(pfg) + StoreEdges(c, stores, o, i)
        invariant pt == old(pt) && old(workList) <= workList
        invariant QueuedForNewEdges(pt, old(pfg), pfg, workList[|old(workList)|..])
        invariant reachable == old(reachable) && callEdges == old(callEdges) && entryMethods == old(entryMethods)
        invariant Flows()
      {
        ghost var g, w := pfg, workList;
        AddPFGEdge(CSVar(c, stores[i].rhs), InstanceField(o, stores[i].field));
        QueuedForNewEdgesStep(pt, old(pfg), g, old(workList), w, workList, CSVar(c, stores[i].rhs), InstanceField(o, stores[i].field));
      }
    }

    /** o.f -> y, y in context c, for every y = x.f. */
    method AddLoadEdges(c: Context, loads: seq<FieldLoad>, o: CSObj)
      requires Flows()
      modifies this
      ensures pfg == old(pfg) + LoadEdges(c, loads, o, |loads|)
      ensures pt == old(pt) && old(workList) <= workList
      ensures QueuedForNewEdges(pt, old(pfg), pfg, workList[|old(workList)|..])
      ensures reachable == old(reachable) && callEdges == old(callEdges) && entryMethods == old(entryMethods)
      ensures Flows()
    {
      for i := 0 to |loads|
        invariant pfg == old(pfg) + LoadEdges(c, loads, o, i)
        invariant pt == old(pt) && old(workList) <= workList
        invariant QueuedForNewEdges(pt, old(pfg), pfg, workList[|old(workList)|..])
        invariant reachable == old(reachable) && callEdges == old(callEdges) && entryMethods == old(entryMethods)
        invariant Flows()
      {
        ghost var g, w := pfg, workList;
        AddPFGEdge(InstanceField(o, loads[i].field), CSVar(c, loads[i].lhs));
        QueuedForNewEdgesStep(pt, old(pfg), g, old(workList), w, workList, InstanceField(o, loads[i].field), CSVar(c, loads[i].lhs));
      }
    }

    /** y -> o[*], y in context c, for every x[*] = y. */
    method AddArrayStoreEdges(c: Context, rhss: seq<Var>, o: CSObj)
      requires Flows()
      modifies this
      ensures pfg == old(pfg) + ArrayStoreEdges(c, rhss, o, |rhss|)
      ensures pt == old(pt) && old(workList) <= workList
      ensures QueuedForNewEdges(pt, old(pfg), pfg, workList[|old(workList)|..])
      ensures reachable == old(reachable) && callEdges == old(callEdges) && entryMethods == old(entryMethods)
      ensures Flows()
    {
      for i := 0 to |rhss|
        invariant pfg == old(pfg) + ArrayStoreEdges(c, rhss, o, i)
        invariant pt == old(pt) && old(workList) <= workList
        invariant QueuedForNewEdges(pt, old(pfg), pfg, workList[|old(workList)|..])
        invariant reachable == old(reachable) && callEdges == old(callEdges) && entryMethods == old(entryMethods)
        invariant Flows()
      {
        ghost var g, w := pfg, workList;
        AddPFGEdge(CSVar(c, rhss[i]), ArrayIndex(o));
        QueuedForNewEdgesStep(pt, old(pfg), g, old(workList), w, workList, CSVar(c, rhss[i]), ArrayIndex(o));
      }
    }

    /** o[*] -> y, y in context c, for every y = x[*]. */
    method AddArrayLoadEdges(c: Context, lhss: seq<Var>, o: CSObj)
      requires Flows()
      modifies this
      ensures pfg == old(pfg) + ArrayLoadEdges(c, lhss, o, |lhss|)
      ensures pt == old(pt) && old(workList) <= workList
      ensures QueuedForNewEdges(pt, old(pfg), pfg, workList[|old(workList)|..])
      ensures reachable == old(reachable) && callEdges == old(callEdges) && entryMethods == old(entryMethods)
      ensures Flows()
    {
      for i := 0 to |lhss|
        invariant pfg == old(pfg) + ArrayLoadEdges(c, lhss, o, i)
        invariant pt == old(pt) && old(workList) <= workList
        invariant QueuedForNewEdges(pt, old(pfg), pfg, workList[|old(workList)|..])
        invariant reachable == old(reachable) && callEdges == old(callEdges) && entryMethods == old(entryMethods)
        invariant Flows()
      {
        ghost var g, w := pfg, workList;
        AddPFGEdge(ArrayIndex(o), CSVar(c, lhss[i]));
        QueuedForNewEdgesStep(pt, old(pfg), g, old(workList), w, workList, ArrayIndex(o), CSVar(c, lhss[i]));
      }
    }

    /** For a new object o of x in context c: its field and array edges. */
    method ReplayFields(c: Context, x: Var, o: CSObj)
      requires Flows()
      modifies this
      ensures pfg == old(pfg) + FieldFlow(prog, c, x, o)
      ensures pt == old(pt) && old(workList) <= workList
      ensures QueuedForNewEdges(pt, old(pfg), pfg, workList[|old(workList)|..])
      ensures reachable == old(reachable) && callEdges == old(callEdges) && entryMethods == old(entryMethods)
      ensures Flows()
    {
      AddStoreEdges(c, prog.storeFields(x), o);
      ghost var g1, w1 := pfg, workList;
      AddLoadEdges(c, prog.loadFields(x), o);
      QueuedForNewEdgesChain(pt, old(pfg), g1, pfg, old(workList), w1, workList);
      ghost var g2, w2 := pfg, workList;
      AddArrayStoreEdges(c, prog.storeArrays(x), o);
      QueuedForNewEdgesChain(pt, old(pfg), g2, pfg, old(workList), w2, workList);
      ghost var g3, w3 := pfg, workList;
      AddArrayLoadEdges(c, prog.loadArrays(x), o);
      QueuedForNewEdgesChain(pt, old(pfg), g3, pfg, old(workList), w3, workList);
    }

    /**
     * Processes the calls on receiver variable x, in context c, for its new
     * object o: queues o at the `this` of the callee in its selected context,
     * and when the call edge is new, makes that pair reachable and adds its
     * argument and return edges.
     */
    method ProcessCall(c: Context, x: Var, o: CSObj, ghost u: Unfinished)
      requires Valid() && Inv(prog, sel, Snap(), u)
      modifies this
      ensures forall site :: site in prog.invokesOn(x) ==> CallWired(prog, sel, Snap(), c, site, o)
      ensures pt == old(pt) && entryMethods == old(entryMethods)
      ensures Inv(prog, sel, Snap(), u) && Extends(old(Snap()), Snap())
    {
      var sites := prog.invokesOn(x);
      for k := 0 to |sites|
        invariant pt == old(pt) && entryMethods == old(entryMethods)
        invariant Inv(prog, sel, Snap(), u) && Extends(old(Snap()), Snap())
        invariant forall j :: 0 <= j < k ==> CallWired(prog, sel, Snap(), c, sites[j], o)
      {
        ghost var a := Snap();
        var site := sites[k];
        var callee := prog.resolveCallee(Some(o.obj), site);
        var csCallSite := CSCallSite(c, site);
        var calleeContext := sel.instanceContext(csCallSite, o, callee);
        Enqueue(CSVar(calleeContext, prog.thisVar(callee)), {o});
        ghost var b := Snap();
        InvStep(prog, sel, a, b, u);
        var edge := CallEdge(prog.invokes(site).kind, csCallSite, CSMethod(calleeContext, callee));
        if edge !in callEdges {
          NewCallEdge(edge, u);
        }
        ExtendsGrows(a, Snap());
        ExtendsGrows(b, Snap());
        assert o in Cov(b, CSVar(calleeContext, prog.thisVar(callee)));
        forall j | 0 <= j < k + 1
          ensures CallWired(prog, sel, Snap(), c, sites[j], o)
        {
          if j < k {
            assert CallWired(prog, sel, a, c, sites[j], o);
          }
        }
      }
      assert forall site :: site in sites ==> exists j :: 0 <= j < |sites| && sites[j] == site;
    }

    /** Everything a new object o of variable x in context c brings: its field and array edges, and its calls. */
    method ReplayObject(c: Context, x: Var, o: CSObj, ghost u: Unfinished)
      requires Valid() && Inv(prog, sel, Snap(), u)
      modifies this
      ensures ObjWired(prog, sel, Snap(), c, x, o)
      ensures pt == old(pt) && entryMethods == old(entryMethods)
      ensures Inv(prog, sel, Snap(), u) && Extends(old(Snap()), Snap())
    {
      ghost var a := Snap();
      ReplayFields(c, x, o);
      InvStep(prog, sel, a, Snap(), u);
      ProcessCall(c, x, o, u);
    }

    /**
     * Drains the work list, for at most fuel entries: propagates each entry
     * and, when its pointer is a variable, replays the variable's field, array
     * and call statements for every object new to it.
     */
    method Analyze(fuel: nat) returns (drained: bool)
      requires Valid() && Inv(prog, sel, Snap(), NothingUnfinished)
      modifies this
      ensures drained <==> workList == []
      ensures old(reachable) <= reachable && old(callEdges) <= callEdges && entryMethods == old(entryMethods)
      ensures Inv(prog, sel, Snap(), NothingUnfinished)
    {
      var n := fuel;
      while workList != [] && n > 0
        invariant Inv(prog, sel, Snap(), NothingUnfinished)
        invariant old(reachable) <= reachable && old(callEdges) <= callEdges && entryMethods == old(entryMethods)
        decreases n
      {
        ghost var a := Snap();
        var entry := workList[0];
        workList := workList[1..];
        var delta := Propagate(entry.pointer, entry.objs);
        PollKeepsInv(prog, sel, a, Snap(), entry.pointer, entry.objs);
        if entry.pointer.CSVar? {
          var c, x := entry.pointer.ctx, entry.pointer.v;
          var rest := delta;
          while rest != {}
            invariant Inv(prog, sel, Snap(), Unfinished({}, {}, PairsOf(entry.pointer, rest)))
            invariant old(reachable) <= reachable && old(callEdges) <= callEdges && entryMethods == old(entryMethods)
            decreases rest
          {
            var o :| o in rest;
            ReplayObject(c, x, o, Unfinished({}, {}, PairsOf(entry.pointer, rest)));
            InvRelease(prog, sel, Snap(), Unfinished({}, {}, PairsOf(entry.pointer, rest)),
                       Unfinished({}, {}, PairsOf(entry.pointer, rest - {o})));
            rest := rest - {o};
          }
          InvRelease(prog, sel, Snap(), Unfinished({}, {}, PairsOf(entry.pointer, rest)), NothingUnfinished);
        } else {
          InvRelease(prog, sel, Snap(), Unfinished({}, {}, PairsOf(entry.pointer, delta)), NothingUnfinished);
        }
        n := n - 1;
      }
      drained := workList == [];
    }

    /** Starts the analysis afresh from the entry method, paired with the empty context. */
    method Initialize(entry: Method)
      requires Valid() && entry in prog.methods
      modifies this
      ensures entryMethods == {CSMethod(sel.empty, entry)} && CSMethod(sel.empty, entry) in reachable
      ensures Inv(prog, sel, Snap(), NothingUnfinished)
    {
      pt := map[];
      pfg := {};
      workList := [];
      reachable := {};
      callEdges := {};
      var csMethod := CSMethod(sel.empty, entry);
      entryMethods := {csMethod};
      AddReachable(csMethod, NothingUnfinished);
    }

    /**
     * Runs the analysis. When the work list drains within the fuel, the
     * points-to sets and the call graph solve the analysis rules.
     */
    method Solve(entry: Method, fuel: nat) returns (drained: bool)
      requires Valid() && entry in prog.methods
      modifies this
      ensures entryMethods == {CSMethod(sel.empty, entry)} && CSMethod(sel.empty, entry) in reachable
      ensures drained ==> workList == [] && IsSolution(prog, sel, entry, pt, reachable, callEdges)
    {
      Initialize(entry);
      drained := Analyze(fuel);
      if drained {
        FixpointIsSolution(prog, sel, Snap(), entry);
      }
    }
  }
}
