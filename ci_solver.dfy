/**
 * The context-insensitive Andersen-style pointer analysis of A5/Solver.java.
 *
 * The solver keeps a points-to set per pointer, the pointer flow graph (PFG),
 * a work list of (pointer, objects) entries, and a call graph made of the
 * reachable methods and the call edges. Reaching a method wires its
 * statements into the PFG; draining the work list propagates objects along
 * the PFG and, for each object newly pointed to by a variable, wires that
 * variable's field, array and call statements for the object.
 *
 * The invariant kept by every operation relates the state to that work still
 * outstanding; once the work list is empty, it shows the points-to sets and
 * the call graph to be a solution of the analysis rules (IsSolution).
 */
module CIPta {
  import opened Wrappers
  import opened PtaIr
  import opened PtaCore
  import Cha

  datatype Pointer =
    | VarPtr(v: Var)
    | StaticField(field: Field)
    | InstanceField(base: Obj, field: Field)
    | ArrayIndex(array: Obj)

  datatype CallEdge = CallEdge(kind: CallKind, site: CallSiteId, callee: Method)

  /** The solver's fields, as one value. */
  datatype State = State(pt: map<Pointer, set<Obj>>, pfg: set<(Pointer, Pointer)>,
                         workList: seq<Entry<Pointer, Obj>>, reachable: set<Method>, callEdges: set<CallEdge>)

  /** What p points to once the work list is drained. */
  ghost function Cov(st: State, p: Pointer): set<Obj>
  {
    Covered(st.pt, st.workList, p)
  }

  /** The edges a_j -> m_j for the first n arguments and parameters. */
  function ArgEdges(args: seq<Var>, params: seq<Var>, n: nat): set<(Pointer, Pointer)>
    requires n <= |args| && n <= |params|
  {
    if n == 0 then {} else ArgEdges(args, params, n - 1) + {(VarPtr(args[n - 1]), VarPtr(params[n - 1]))}
  }

  lemma {:induction false} ArgEdgesMembers(args: seq<Var>, params: seq<Var>, n: nat, e: (Pointer, Pointer))
    requires n <= |args| && n <= |params|
    ensures e in ArgEdges(args, params, n) <==> exists j :: 0 <= j < n && e == (VarPtr(args[j]), VarPtr(params[j]))
    decreases n
  {
    if n > 0 {
      ArgEdgesMembers(args, params, n - 1, e);
      var j := n - 1;
      assert e == (VarPtr(args[j]), VarPtr(params[j])) ==> e in ArgEdges(args, params, n);
    }
  }

  /** The edges m_ret -> r for the first n return variables. */
  function RetEdges(rets: seq<Var>, r: Var, n: nat): set<(Pointer, Pointer)>
    requires n <= |rets|
  {
    if n == 0 then {} else RetEdges(rets, r, n - 1) + {(VarPtr(rets[n - 1]), VarPtr(r))}
  }

  lemma {:induction false} RetEdgesMembers(rets: seq<Var>, r: Var, n: nat, e: (Pointer, Pointer))
    requires n <= |rets|
    ensures e in RetEdges(rets, r, n) <==> exists j :: 0 <= j < n && e == (VarPtr(rets[j]), VarPtr(r))
    decreases n
  {
    if n > 0 {
      RetEdgesMembers(rets, r, n - 1, e);
      var j := n - 1;
      assert e == (VarPtr(rets[j]), VarPtr(r)) ==> e in RetEdges(rets, r, n);
    }
  }

  /** The PFG edges a call edge to callee at site brings: arguments to parameters, returns to the result. */
  function CallFlow(prog: Program, site: CallSiteId, callee: Method): set<(Pointer, Pointer)>
  {
    var inv := prog.invokes(site);
    ArgEdges(inv.args, prog.params(callee), Min(|inv.args|, |prog.params(callee)|))
      + (if inv.result.Some? then RetEdges(prog.returnVars(callee), inv.result.value, |prog.returnVars(callee)|) else {})
  }

  // ----- What has been done for a statement, a call edge and an object -----

  ghost predicate StmtDone(prog: Program, st: State, s: Stmt)
  {
    match s
    case New(x, o) => o in Cov(st, VarPtr(x))
    case Copy(x, y) => (VarPtr(y), VarPtr(x)) in st.pfg
    case StoreField(isStatic, f, y) => isStatic ==> (VarPtr(y), StaticField(f)) in st.pfg
    case LoadField(isStatic, x, f) => isStatic ==> (StaticField(f), VarPtr(x)) in st.pfg
    case Call(site) =>
      prog.invokes(site).isStatic ==> CallEdge(Cha.CallKind.STATIC, site, prog.resolveCallee(None, site)) in st.callEdges
    case Other => true
  }

  ghost predicate MethodDone(prog: Program, st: State, m: Method)
  {
    forall s :: s in prog.body(m) ==> StmtDone(prog, st, s)
  }

  ghost predicate EdgeWired(prog: Program, st: State, e: CallEdge)
  {
    e.callee in st.reachable && CallFlow(prog, e.site, e.callee) <= st.pfg
  }

  /** The edges y -> o.f of the first n stores x.f = y on x. */
  function StoreEdges(stores: seq<FieldStore>, o: Obj, n: nat): set<(Pointer, Pointer)>
    requires n <= |stores|
  {
    if n == 0 then {} else StoreEdges(stores, o, n - 1) + {(VarPtr(stores[n - 1].rhs), InstanceField(o, stores[n - 1].field))}
  }

  lemma {:induction false} StoreEdgesMembers(stores: seq<FieldStore>, o: Obj, n: nat, e: (Pointer, Pointer))
    requires n <= |stores|
    ensures e in StoreEdges(stores, o, n) <==> exists j :: 0 <= j < n && e == (VarPtr(stores[j].rhs), InstanceField(o, stores[j].field))
    decreases n
  {
    if n > 0 {
      StoreEdgesMembers(stores, o, n - 1, e);
      var j := n - 1;
      assert e == (VarPtr(stores[j].rhs), InstanceField(o, stores[j].field)) ==> e in StoreEdges(stores, o, n);
    }
  }

  /** The edges o.f -> y of the first n loads y = x.f on x. */
  function LoadEdges(loads: seq<FieldLoad>, o: Obj, n: nat): set<(Pointer, Pointer)>
    requires n <= |loads|
  {
    if n == 0 then {} else LoadEdges(loads, o, n - 1) + {(InstanceField(o, loads[n - 1].field), VarPtr(loads[n - 1].lhs))}
  }

  lemma {:induction false} LoadEdgesMembers(loads: seq<FieldLoad>, o: Obj, n: nat, e: (Pointer, Pointer))
    requires n <= |loads|
    ensures e in LoadEdges(loads, o, n) <==> exists j :: 0 <= j < n && e == (InstanceField(o, loads[j].field), VarPtr(loads[j].lhs))
    decreases n
  {
    if n > 0 {
      LoadEdgesMembers(loads, o, n - 1, e);
      var j := n - 1;
      assert e == (InstanceField(o, loads[j].field), VarPtr(loads[j].lhs)) ==> e in LoadEdges(loads, o, n);
    }
  }

  /** The edges y -> o[*] of the first n array stores x[*] = y on x. */
  function ArrayStoreEdges(rhss: seq<Var>, o: Obj, n: nat): set<(Pointer, Pointer)>
    requires n <= |rhss|
  {
    if n == 0 then {} else ArrayStoreEdges(rhss, o, n - 1) + {(VarPtr(rhss[n - 1]), ArrayIndex(o))}
  }

  lemma {:induction false} ArrayStoreEdgesMembers(rhss: seq<Var>, o: Obj, n: nat, e: (Pointer, Pointer))
    requires n <= |rhss|
    ensures e in ArrayStoreEdges(rhss, o, n) <==> exists j :: 0 <= j < n && e == (VarPtr(rhss[j]), ArrayIndex(o))
    decreases n
  {
    if n > 0 {
      ArrayStoreEdgesMembers(rhss, o, n - 1, e);
      var j := n - 1;
      assert e == (VarPtr(rhss[j]), ArrayIndex(o)) ==> e in ArrayStoreEdges(rhss, o, n);
    }
  }

  /** The edges o[*] -> y of the first n array loads y = x[*] on x. */
  function ArrayLoadEdges(lhss: seq<Var>, o: Obj, n: nat): set<(Pointer, Pointer)>
    requires n <= |lhss|
  {
    if n == 0 then {} else ArrayLoadEdges(lhss, o, n - 1) + {(ArrayIndex(o), VarPtr(lhss[n - 1]))}
  }

  lemma {:induction false} ArrayLoadEdgesMembers(lhss: seq<Var>, o: Obj, n: nat, e: (Pointer, Pointer))
    requires n <= |lhss|
    ensures e in ArrayLoadEdges(lhss, o, n) <==> exists j :: 0 <= j < n && e == (ArrayIndex(o), VarPtr(lhss[j]))
    decreases n
  {
    if n > 0 {
      ArrayLoadEdgesMembers(lhss, o, n - 1, e);
      var j := n - 1;
      assert e == (ArrayIndex(o), VarPtr(lhss[j])) ==> e in ArrayLoadEdges(lhss, o, n);
    }
  }

  /** The PFG edges a new object o of variable x brings through x's field and array accesses. */
  function FieldFlow(prog: Program, x: Var, o: Obj): set<(Pointer, Pointer)>
  {
    StoreEdges(prog.storeFields(x), o, |prog.storeFields(x)|)
      + LoadEdges(prog.loadFields(x), o, |prog.loadFields(x)|)
      + ArrayStoreEdges(prog.storeArrays(x), o, |prog.storeArrays(x)|)
      + ArrayLoadEdges(prog.loadArrays(x), o, |prog.loadArrays(x)|)
  }

  /** The call at site on receiver object o has its edge, and o is owed to the callee's `this`. */
  ghost predicate CallWired(prog: Program, st: State, site: CallSiteId, o: Obj)
  {
    var callee := prog.resolveCallee(Some(o), site);
    && CallEdge(prog.invokes(site).kind, site, callee) in st.callEdges
    && o in Cov(st, VarPtr(prog.thisVar(callee)))
  }

  ghost predicate ObjWired(prog: Program, st: State, x: Var, o: Obj)
  {
    FieldFlow(prog, x, o) <= st.pfg && forall site :: site in prog.invokesOn(x) ==> CallWired(prog, st, site, o)
  }

  /** The methods, call edges and (variable, object) pairs whose wiring is under way. */
  datatype Unfinished = Unfinished(methods: set<Method>, edges: set<CallEdge>, objs: set<(Var, Obj)>)

  const NothingUnfinished := Unfinished({}, {}, {})

  /**
   * The solver's invariant: points-to sets flow along the PFG up to what the
   * work list owes, and every reachable method, call edge and pointed-to
   * object is wired, except those whose wiring is under way.
   */
  ghost predicate Inv(prog: Program, st: State, u: Unfinished)
  {
    && st.reachable <= prog.methods
    && FlowsAlong(st.pt, st.pfg, st.workList)
    && (forall m :: m in st.reachable && m !in u.methods ==> MethodDone(prog, st, m))
    && (forall e :: e in st.callEdges && e !in u.edges ==> EdgeWired(prog, st, e))
    && (forall x: Var, o: Obj :: o in PtOf(st.pt, VarPtr(x)) && (x, o) !in u.objs ==> ObjWired(prog, st, x, o))
  }

  /** b has every edge, method and call edge of a, and covers at least as much. */
  ghost predicate Grows(a: State, b: State)
  {
    && a.pfg <= b.pfg && a.reachable <= b.reachable && a.callEdges <= b.callEdges
    && CoveredGrows(a.pt, a.workList, b.pt, b.workList)
  }

  /** b is a after adding edges, methods and call edges and appending to the work list. */
  ghost predicate Extends(a: State, b: State)
  {
    && a.pfg <= b.pfg && a.reachable <= b.reachable && a.callEdges <= b.callEdges
    && b.pt == a.pt && a.workList <= b.workList
  }

  lemma ExtendsGrows(a: State, b: State)
    requires Extends(a, b)
    ensures Grows(a, b)
  {
    PrefixCoveredGrows(a.pt, a.workList, b.workList);
  }

  lemma ExtendsTrans(a: State, b: State, c: State)
    requires Extends(a, b) && Extends(b, c)
    ensures Extends(a, c)
  {
  }

  lemma StmtDoneGrows(prog: Program, a: State, b: State, s: Stmt)
    requires Grows(a, b) && StmtDone(prog, a, s)
    ensures StmtDone(prog, b, s)
  {
  }

  /** The first n statements of stmts are done. */
  ghost predicate PrefixDone(prog: Program, st: State, stmts: seq<Stmt>, n: nat)
    requires n <= |stmts|
  {
    n == 0 || (PrefixDone(prog, st, stmts, n - 1) && StmtDone(prog, st, stmts[n - 1]))
  }

  lemma {:induction false} PrefixDoneGrows(prog: Program, a: State, b: State, stmts: seq<Stmt>, n: nat)
    requires n <= |stmts| && Grows(a, b) && PrefixDone(prog, a, stmts, n)
    ensures PrefixDone(prog, b, stmts, n)
    decreases n
  {
    if n > 0 {
      PrefixDoneGrows(prog, a, b, stmts, n - 1);
      StmtDoneGrows(prog, a, b, stmts[n - 1]);
    }
  }

  lemma {:induction false} PrefixDoneAll(prog: Program, st: State, stmts: seq<Stmt>, n: nat)
    requires n <= |stmts| && PrefixDone(prog, st, stmts, n)
    ensures forall s :: s in stmts[..n] ==> StmtDone(prog, st, s)
    decreases n
  {
    if n > 0 {
      PrefixDoneAll(prog, st, stmts, n - 1);
      assert stmts[..n] == stmts[..n - 1] + [stmts[n - 1]];
    }
  }

  lemma ObjWiredGrows(prog: Program, a: State, b: State, x: Var, o: Obj)
    requires Grows(a, b) && ObjWired(prog, a, x, o)
    ensures ObjWired(prog, b, x, o)
  {
    forall site | site in prog.invokesOn(x)
      ensures CallWired(prog, b, site, o)
    {
      assert CallWired(prog, a, site, o);
    }
  }

  /**
   * Growth keeps the invariant, given that the flow holds in the new state
   * and whatever it adds is listed as unfinished.
   */
  lemma InvGrows(prog: Program, a: State, b: State, u: Unfinished)
    requires Inv(prog, a, u) && Grows(a, b)
    requires b.reachable <= prog.methods && FlowsAlong(b.pt, b.pfg, b.workList)
    requires b.reachable - a.reachable <= u.methods && b.callEdges - a.callEdges <= u.edges
    requires forall x: Var, o: Obj :: o in PtOf(b.pt, VarPtr(x)) && (x, o) !in u.objs ==> o in PtOf(a.pt, VarPtr(x))
    ensures Inv(prog, b, u)
  {
    forall m | m in b.reachable && m !in u.methods
      ensures MethodDone(prog, b, m)
    {
      forall s | s in prog.body(m)
        ensures StmtDone(prog, b, s)
      {
        StmtDoneGrows(prog, a, b, s);
      }
    }
    forall x: Var, o: Obj | o in PtOf(b.pt, VarPtr(x)) && (x, o) !in u.objs
      ensures ObjWired(prog, b, x, o)
    {
      ObjWiredGrows(prog, a, b, x, o);
    }
  }

  /** Work under way that has been finished can be taken off the unfinished list. */
  lemma InvRelease(prog: Program, st: State, u: Unfinished, u': Unfinished)
    requires Inv(prog, st, u)
    requires forall m :: m in u.methods && m !in u'.methods && m in st.reachable ==> MethodDone(prog, st, m)
    requires forall e :: e in u.edges && e !in u'.edges && e in st.callEdges ==> EdgeWired(prog, st, e)
    requires forall x: Var, o: Obj :: (x, o) in u.objs && (x, o) !in u'.objs && o in PtOf(st.pt, VarPtr(x)) ==> ObjWired(prog, st, x, o)
    ensures Inv(prog, st, u')
  {
  }

  /** A step that only adds PFG edges and work-list entries, keeping the flow, keeps the invariant. */
  lemma InvStep(prog: Program, a: State, b: State, u: Unfinished)
    requires Inv(prog, a, u) && Extends(a, b) && FlowsAlong(b.pt, b.pfg, b.workList)
    requires b.reachable == a.reachable && b.callEdges == a.callEdges
    ensures Inv(prog, b, u)
  {
    ExtendsGrows(a, b);
    InvGrows(prog, a, b, u);
  }

  /** Marking m reachable keeps the invariant while m's statements are under way, and shrinks the methods left. */
  lemma MarkReachable(prog: Program, a: State, m: Method, u: Unfinished)
    requires Inv(prog, a, u) && m in prog.methods && m !in a.reachable
    ensures Inv(prog, a.(reachable := a.reachable + {m}), u.(methods := u.methods + {m}))
    ensures Extends(a, a.(reachable := a.reachable + {m}))
    ensures |prog.methods - (a.reachable + {m})| < |prog.methods - a.reachable|
  {
    var b := a.(reachable := a.reachable + {m});
    assert prog.methods - b.reachable == (prog.methods - a.reachable) - {m};
    ExtendsGrows(a, b);
    InvGrows(prog, a, b, u.(methods := u.methods + {m}));
  }

  /** Once every statement of m is done, m is no longer under way. */
  lemma FinishReachable(prog: Program, st: State, m: Method, u: Unfinished)
    requires Inv(prog, st, u.(methods := u.methods + {m}))
    requires PrefixDone(prog, st, prog.body(m), |prog.body(m)|)
    ensures Inv(prog, st, u)
  {
    var stmts := prog.body(m);
    PrefixDoneAll(prog, st, stmts, |stmts|);
    assert stmts[..|stmts|] == stmts;
    InvRelease(prog, st, u.(methods := u.methods + {m}), u);
  }



  // ----- The analysis rules, stated on the points-to sets alone -----

  ghost function PtsOf(pt: map<Pointer, set<Obj>>, v: Var): set<Obj>
  {
    PtOf(pt, VarPtr(v))
  }

  ghost predicate StmtRule(prog: Program, pt: map<Pointer, set<Obj>>, callEdges: set<CallEdge>, s: Stmt)
  {
    match s
    case New(x, o) => o in PtsOf(pt, x)
    case Copy(x, y) => PtsOf(pt, y) <= PtsOf(pt, x)
    case StoreField(isStatic, f, y) => isStatic ==> PtsOf(pt, y) <= PtOf(pt, StaticField(f))
    case LoadField(isStatic, x, f) => isStatic ==> PtOf(pt, StaticField(f)) <= PtsOf(pt, x)
    case Call(site) =>
      prog.invokes(site).isStatic ==> CallEdge(Cha.CallKind.STATIC, site, prog.resolveCallee(None, site)) in callEdges
    case Other => true
  }

  /** Along a call edge, arguments flow to parameters and return variables to the result. */
  ghost predicate EdgeRule(prog: Program, pt: map<Pointer, set<Obj>>, reachable: set<Method>, e: CallEdge)
  {
    var inv := prog.invokes(e.site);
    var ps := prog.params(e.callee);
    && e.callee in reachable
    && (forall j :: 0 <= j < |ps| && j < |inv.args| ==> PtsOf(pt, inv.args[j]) <= PtsOf(pt, ps[j]))
    && (inv.result.Some? ==> forall r :: r in prog.returnVars(e.callee) ==> PtsOf(pt, r) <= PtsOf(pt, inv.result.value))
  }

  /** What an object o of variable x brings: field and array flows, and its calls. */
  ghost predicate ObjRule(prog: Program, pt: map<Pointer, set<Obj>>, callEdges: set<CallEdge>, x: Var, o: Obj)
  {
    && (forall s :: s in prog.storeFields(x) ==> PtsOf(pt, s.rhs) <= PtOf(pt, InstanceField(o, s.field)))
    && (forall l :: l in prog.loadFields(x) ==> PtOf(pt, InstanceField(o, l.field)) <= PtsOf(pt, l.lhs))
    && (forall y :: y in prog.storeArrays(x) ==> PtsOf(pt, y) <= PtOf(pt, ArrayIndex(o)))
    && (forall y :: y in prog.loadArrays(x) ==> PtOf(pt, ArrayIndex(o)) <= PtsOf(pt, y))
    && (forall site :: site in prog.invokesOn(x) ==>
          var callee := prog.resolveCallee(Some(o), site);
          CallEdge(prog.invokes(site).kind, site, callee) in callEdges && o in PtsOf(pt, prog.thisVar(callee)))
  }

  /** Points-to sets and a call graph closed under every rule of the analysis, from the entry method. */
  ghost predicate IsSolution(prog: Program, entry: Method, pt: map<Pointer, set<Obj>>,
                             reachable: set<Method>, callEdges: set<CallEdge>)
  {
    && entry in reachable
    && (forall m, s :: m in reachable && s in prog.body(m) ==> StmtRule(prog, pt, callEdges, s))
    && (forall e :: e in callEdges ==> EdgeRule(prog, pt, reachable, e))
    && (forall x, o :: o in PtsOf(pt, x) ==> ObjRule(prog, pt, callEdges, x, o))
  }

  lemma StmtRuleAtFixpoint(prog: Program, st: State, s: Stmt)
    requires StmtDone(prog, st, s) && FlowsAlong(st.pt, st.pfg, []) && st.workList == []
    ensures StmtRule(prog, st.pt, st.callEdges, s)
  {
    var none: seq<Entry<Pointer, Obj>> := [];
    assert forall p :: Pending(none, p) == {};
    FlowsAlongAtFixpoint(st.pt, st.pfg);
  }

  lemma EdgeRuleAtFixpoint(prog: Program, st: State, e: CallEdge)
    requires EdgeWired(prog, st, e) && FlowsAlong(st.pt, st.pfg, [])
    ensures EdgeRule(prog, st.pt, st.reachable, e)
  {
    FlowsAlongAtFixpoint(st.pt, st.pfg);
    var inv := prog.invokes(e.site);
    var ps := prog.params(e.callee);
    forall j | 0 <= j < |ps| && j < |inv.args|
      ensures PtsOf(st.pt, inv.args[j]) <= PtsOf(st.pt, ps[j])
    {
      ArgEdgesMembers(inv.args, ps, Min(|inv.args|, |ps|), (VarPtr(inv.args[j]), VarPtr(ps[j])));
      assert (VarPtr(inv.args[j]), VarPtr(ps[j])) in CallFlow(prog, e.site, e.callee);
    }
    if inv.result.Some? {
      var rets := prog.returnVars(e.callee);
      forall r | r in rets
        ensures PtsOf(st.pt, r) <= PtsOf(st.pt, inv.result.value)
      {
        var j :| 0 <= j < |rets| && rets[j] == r;
        RetEdgesMembers(rets, inv.result.value, |rets|, (VarPtr(rets[j]), VarPtr(inv.result.value)));
        assert (VarPtr(rets[j]), VarPtr(inv.result.value)) in CallFlow(prog, e.site, e.callee);
      }
    }
  }

  lemma ObjRuleAtFixpoint(prog: Program, st: State, x: Var, o: Obj)
    requires ObjWired(prog, st, x, o) && FlowsAlong(st.pt, st.pfg, []) && st.workList == []
    ensures ObjRule(prog, st.pt, st.callEdges, x, o)
  {
    var none: seq<Entry<Pointer, Obj>> := [];
    assert forall p :: Pending(none, p) == {};
    FlowsAlongAtFixpoint(st.pt, st.pfg);
    var stores, loads := prog.storeFields(x), prog.loadFields(x);
    var arrayStores, arrayLoads := prog.storeArrays(x), prog.loadArrays(x);
    forall s | s in stores
      ensures PtsOf(st.pt, s.rhs) <= PtOf(st.pt, InstanceField(o, s.field))
    {
      var j :| 0 <= j < |stores| && stores[j] == s;
      StoreEdgesMembers(stores, o, |stores|, (VarPtr(s.rhs), InstanceField(o, s.field)));
      assert (VarPtr(s.rhs), InstanceField(o, s.field)) in FieldFlow(prog, x, o);
    }
    forall l | l in loads
      ensures PtOf(st.pt, InstanceField(o, l.field)) <= PtsOf(st.pt, l.lhs)
    {
      var j :| 0 <= j < |loads| && loads[j] == l;
      LoadEdgesMembers(loads, o, |loads|, (InstanceField(o, l.field), VarPtr(l.lhs)));
      assert (InstanceField(o, l.field), VarPtr(l.lhs)) in FieldFlow(prog, x, o);
    }
    forall y | y in arrayStores
      ensures PtsOf(st.pt, y) <= PtOf(st.pt, ArrayIndex(o))
    {
      var j :| 0 <= j < |arrayStores| && arrayStores[j] == y;
      ArrayStoreEdgesMembers(arrayStores, o, |arrayStores|, (VarPtr(y), ArrayIndex(o)));
      assert (VarPtr(y), ArrayIndex(o)) in FieldFlow(prog, x, o);
    }
    forall y | y in arrayLoads
      ensures PtOf(st.pt, ArrayIndex(o)) <= PtsOf(st.pt, y)
    {
      var j :| 0 <= j < |arrayLoads| && arrayLoads[j] == y;
      ArrayLoadEdgesMembers(arrayLoads, o, |arrayLoads|, (ArrayIndex(o), VarPtr(y)));
      assert (ArrayIndex(o), VarPtr(y)) in FieldFlow(prog, x, o);
    }
    forall site | site in prog.invokesOn(x)
      ensures o in PtsOf(st.pt, prog.thisVar(prog.resolveCallee(Some(o), site)))
    {
      assert CallWired(prog, st, site, o);
    }
  }

  /**
   * The solver's fixpoint: with nothing unfinished and nothing left on the
   * work list, the points-to sets and the call graph solve the rules.
   */
  lemma FixpointIsSolution(prog: Program, st: State, entry: Method)
    requires Inv(prog, st, NothingUnfinished) && st.workList == [] && entry in st.reachable
    ensures IsSolution(prog, entry, st.pt, st.reachable, st.callEdges)
  {
    forall m, s | m in st.reachable && s in prog.body(m)
      ensures StmtRule(prog, st.pt, st.callEdges, s)
    {
      assert MethodDone(prog, st, m);
      StmtRuleAtFixpoint(prog, st, s);
    }
    forall e | e in st.callEdges
      ensures EdgeRule(prog, st.pt, st.reachable, e)
    {
      EdgeRuleAtFixpoint(prog, st, e);
    }
    forall x, o | o in PtsOf(st.pt, x)
      ensures ObjRule(prog, st.pt, st.callEdges, x, o)
    {
      ObjRuleAtFixpoint(prog, st, x, o);
    }
  }

  /** The (variable, object) pairs a propagation to p leaves to be wired. */
  function PairsOf(p: Pointer, objs: set<Obj>): (r: set<(Var, Obj)>)
    ensures forall x: Var, o: Obj :: (x, o) in r <==> p == VarPtr(x) && o in objs
  {
    if p.VarPtr? then set o | o in objs :: (p.v, o) else {}
  }

  /**
   * Polling the head entry (p, objs) and propagating it keeps the invariant,
   * with the objects new to p left to be wired when p is a variable.
   */
  lemma PollKeepsInv(prog: Program, a: State, b: State, p: Pointer, objs: set<Obj>)
    requires Inv(prog, a, NothingUnfinished) && a.workList != [] && a.workList[0] == Entry(p, objs)
    requires b.pt == a.pt[p := PtOf(a.pt, p) + objs]
    requires a.workList[1..] <= b.workList
    requires QueuedForSuccs(a.pfg, p, Delta(a.pt, p, objs), b.workList[|a.workList| - 1..])
    requires b.pfg == a.pfg && b.reachable == a.reachable && b.callEdges == a.callEdges
    ensures Inv(prog, b, Unfinished({}, {}, PairsOf(p, Delta(a.pt, p, objs))))
  {
    var rest := a.workList[1..];
    var added := b.workList[|rest|..];
    assert a.workList == [Entry(p, objs)] + rest;
    assert b.workList == rest + added;
    PropagateKeepsFlow(a.pt, a.pfg, rest, p, objs, added);
    var u := Unfinished({}, {}, PairsOf(p, Delta(a.pt, p, objs)));
    assert Inv(prog, a, u);
    InvGrows(prog, a, b, u);
  }

  class Solver {
    const prog: Program
    var pt: map<Pointer, set<Obj>>
    var pfg: set<(Pointer, Pointer)>
    var workList: seq<Entry<Pointer, Obj>>
    var reachable: set<Method>
    var callEdges: set<CallEdge>
    var entryMethods: set<Method>

    ghost function Snap(): State
      reads this
    {
      State(pt, pfg, workList, reachable, callEdges)
    }

    ghost predicate Flows()
      reads this
    {
      FlowsAlong(pt, pfg, workList)
    }

    constructor(prog: Program)
      ensures this.prog == prog
      ensures pt == map[] && pfg == {} && workList == [] && reachable == {} && callEdges == {} && entryMethods == {}
    {
      this.prog := prog;
      pt := map[];
      pfg := {};
      workList := [];
      reachable := {};
      callEdges := {};
      entryMethods := {};
    }

    /** Adds the edge s -> t; only a new edge queues what s points to at t, and only if that is not empty. */
    method AddPFGEdge(s: Pointer, t: Pointer)
      requires Flows()
      modifies this
      ensures pfg == old(pfg) + {(s, t)}
      ensures workList == old(workList)
        + (if (s, t) !in old(pfg) && PtOf(pt, s) != {} then [Entry(t, PtOf(pt, s))] else [])
      ensures pt == old(pt) && reachable == old(reachable) && callEdges == old(callEdges)
      ensures entryMethods == old(entryMethods)
      ensures Flows()
    {
      ghost var g, wl := pfg, workList;
      if (s, t) !in pfg {
        pfg := pfg + {(s, t)};
        if PtOf(pt, s) != {} {
          workList := workList + [Entry(t, PtOf(pt, s))];
        }
      }
      AddEdgeKeepsFlow(pt, g, wl, s, t);
    }

    /** Queues objs at p. */
    method Enqueue(p: Pointer, objs: set<Obj>)
      requires Flows()
      modifies this
      ensures workList == old(workList) + [Entry(p, objs)]
      ensures pt == old(pt) && pfg == old(pfg) && reachable == old(reachable) && callEdges == old(callEdges)
      ensures entryMethods == old(entryMethods)
      ensures objs <= Covered(pt, workList, p)
      ensures Flows()
    {
      ghost var wl := workList;
      workList := workList + [Entry(p, objs)];
      EnqueueCovers(pt, wl, p, objs);
      FlowsAlongAppend(pt, pfg, wl, [Entry(p, objs)]);
    }

    /** Adds a_i -> p_i for every argument and parameter of a call. */
    method AddArgEdges(args: seq<Var>, params: seq<Var>)
      requires |args| == |params|
      requires Flows()
      modifies this
      ensures pfg == old(pfg) + ArgEdges(args, params, |params|)
      ensures pt == old(pt) && old(workList) <= workList
      ensures QueuedForNewEdges(pt, old(pfg), pfg, workList[|old(workList)|..])
      ensures reachable == old(reachable) && callEdges == old(callEdges) && entryMethods == old(entryMethods)
      ensures Flows()
    {
      for i := 0 to |params|
        invariant pfg == old(pfg) + ArgEdges(args, params, i)
        invariant pt == old(pt) && old(workList) <= workList
        invariant QueuedForNewEdges(pt, old(pfg), pfg, workList[|old(workList)|..])
        invariant reachable == old(reachable) && callEdges == old(callEdges) && entryMethods == old(entryMethods)
        invariant Flows()
      {
        ghost var g, w := pfg, workList;
        AddPFGEdge(VarPtr(args[i]), VarPtr(params[i]));
        QueuedForNewEdgesStep(pt, old(pfg), g, old(workList), w, workList, VarPtr(args[i]), VarPtr(params[i]));
      }
    }

    /** Adds ret -> r for every return variable ret of the callee. */
    method AddReturnEdges(rets: seq<Var>, r: Var)
      requires Flows()
      modifies this
      ensures pfg == old(pfg) + RetEdges(rets, r, |rets|)
      ensures pt == old(pt) && old(workList) <= workList
      ensures QueuedForNewEdges(pt, old(pfg), pfg, workList[|old(workList)|..])
      ensures reachable == old(reachable) && callEdges == old(callEdges) && entryMethods == old(entryMethods)
      ensures Flows()
    {
      for i := 0 to |rets|
        invariant pfg == old(pfg) + RetEdges(rets, r, i)
        invariant pt == old(pt) && old(workList) <= workList
        invariant QueuedForNewEdges(pt, old(pfg), pfg, workList[|old(workList)|..])
        invariant reachable == old(reachable) && callEdges == old(callEdges) && entryMethods == old(entryMethods)
        invariant Flows()
      {
        ghost var g, w := pfg, workList;
        AddPFGEdge(VarPtr(rets[i]), VarPtr(r));
        QueuedForNewEdgesStep(pt, old(pfg), g, old(workList), w, workList, VarPtr(rets[i]), VarPtr(r));
      }
    }

    /** Adds the argument-to-parameter edges and, when the call has a result, the return edges. */
    method ConnectCall(site: CallSiteId, callee: Method)
      requires |prog.invokes(site).args| == |prog.params(callee)|
      requires Flows()
      modifies this
      ensures pfg == old(pfg) + CallFlow(prog, site, callee)
      ensures pt == old(pt) && old(workList) <= workList
      ensures QueuedForNewEdges(pt, old(pfg), pfg, workList[|old(workList)|..])
      ensures reachable == old(reachable) && callEdges == old(callEdges) && entryMethods == old(entryMethods)
      ensures Flows()
    {
      var inv := prog.invokes(site);
      AddArgEdges(inv.args, prog.params(callee));
      if inv.result.Some? {
        ghost var g1, w1 := pfg, workList;
        AddReturnEdges(prog.returnVars(callee), inv.result.value);
        QueuedForNewEdgesChain(pt, old(pfg), g1, pfg, old(workList), w1, workList);
      }
    }

    /** Makes m reachable and wires its statements, the first time only. */
    method AddReachable(m: Method, ghost u: Unfinished)
      requires WellFormed(prog) && m in prog.methods && Inv(prog, Snap(), u)
      modifies this
      decreases |prog.methods - reachable|, 0
      ensures m in reachable && entryMethods == old(entryMethods)
      ensures old(m in reachable) ==> Snap() == old(Snap())
      ensures Inv(prog, Snap(), u) && Extends(old(Snap()), Snap())
    {
      if m !in reachable {
        ghost var a := Snap();
        reachable := reachable + {m};
        MarkReachable(prog, a, m, u);
        ghost var b := Snap();
        VisitBody(m, u.(methods := u.methods + {m}));
        FinishReachable(prog, Snap(), m, u);
        ExtendsTrans(a, b, Snap());
      }
    }

    /** Visits every statement of m in order. */
    method VisitBody(m: Method, ghost u: Unfinished)
      requires WellFormed(prog) && Inv(prog, Snap(), u)
      modifies this
      decreases |prog.methods - reachable|, 3
      ensures PrefixDone(prog, Snap(), prog.body(m), |prog.body(m)|)
      ensures |prog.methods - reachable| <= |prog.methods - old(reachable)|
      ensures entryMethods == old(entryMethods)
      ensures Inv(prog, Snap(), u) && Extends(old(Snap()), Snap())
    {
      var stmts := prog.body(m);
      for i := 0 to |stmts|
        invariant entryMethods == old(entryMethods)
        invariant |prog.methods - reachable| <= |prog.methods - old(reachable)|
        invariant Inv(prog, Snap(), u) && Extends(old(Snap()), Snap())
        invariant PrefixDone(prog, Snap(), stmts, i)
      {
        ghost var b := Snap();
        VisitStmt(stmts[i], u);
        ExtendsGrows(b, Snap());
        DiffShrinks(prog.methods, b.reachable, reachable);
        PrefixDoneGrows(prog, b, Snap(), stmts, i);
      }
    }

    /**
     * The statement visitor: New queues its object at the left-hand side,
     * Copy and static field accesses add an edge, and a static call adds its
     * STATIC call edge, wiring the callee only when that edge is new.
     */
    method VisitStmt(s: Stmt, ghost u: Unfinished)
      requires WellFormed(prog) && Inv(prog, Snap(), u)
      modifies this
      decreases |prog.methods - reachable|, 2
      ensures StmtDone(prog, Snap(), s)
      ensures s.New? ==> Snap() == old(Snap()).(workList := old(workList) + [Entry(VarPtr(s.lhs), {s.obj})])
      ensures s.Copy? ==> pfg == old(pfg) + {(VarPtr(s.rhs), VarPtr(s.lhs))} && pt == old(pt)
      ensures s.StoreField? && s.isStatic ==> pfg == old(pfg) + {(VarPtr(s.rhs), StaticField(s.field))} && pt == old(pt)
      ensures s.LoadField? && s.isStatic ==> pfg == old(pfg) + {(StaticField(s.field), VarPtr(s.lhs))} && pt == old(pt)
      ensures s.Other? || (s.StoreField? && !s.isStatic) || (s.LoadField? && !s.isStatic) ==> Snap() == old(Snap())
      ensures s.Call? && !prog.invokes(s.site).isStatic ==> Snap() == old(Snap())
      ensures (s.Call? && CallEdge(Cha.CallKind.STATIC, s.site, prog.resolveCallee(None, s.site)) in old(callEdges))
                ==> Snap() == old(Snap())
      ensures !s.Call? ==> reachable == old(reachable) && callEdges == old(callEdges)
      ensures (s.Copy? || (s.StoreField? && s.isStatic) || (s.LoadField? && s.isStatic)) ==>
                old(workList) <= workList && QueuedForNewEdges(pt, old(pfg), pfg, workList[|old(workList)|..])
      ensures entryMethods == old(entryMethods)
      ensures Inv(prog, Snap(), u) && Extends(old(Snap()), Snap())
    {
      ghost var a := Snap();
      match s
      case New(x, o) =>
        Enqueue(VarPtr(x), {o});
        InvStep(prog, a, Snap(), u);
      case Copy(x, y) =>
        AddPFGEdge(VarPtr(y), VarPtr(x));
        QueuedForAddedEdge(pt, a.pfg, a.workList, workList, VarPtr(y), VarPtr(x));
        InvStep(prog, a, Snap(), u);
      case StoreField(isStatic, f, y) =>
        if isStatic {
          AddPFGEdge(VarPtr(y), StaticField(f));
          QueuedForAddedEdge(pt, a.pfg, a.workList, workList, VarPtr(y), StaticField(f));
          InvStep(prog, a, Snap(), u);
        }
      case LoadField(isStatic, x, f) =>
        if isStatic {
          AddPFGEdge(StaticField(f), VarPtr(x));
          QueuedForAddedEdge(pt, a.pfg, a.workList, workList, StaticField(f), VarPtr(x));
          InvStep(prog, a, Snap(), u);
        }
      case Call(site) =>
        if prog.invokes(site).isStatic {
          var callee := prog.resolveCallee(None, site);
          var edge := CallEdge(Cha.CallKind.STATIC, site, callee);
          if edge !in callEdges {
            NewCallEdge(edge, u);
          }
        }
      case Other =>
    }

    /** Adds a new call edge, makes its callee reachable and connects its arguments and results. */
    method NewCallEdge(edge: CallEdge, ghost u: Unfinished)
      requires WellFormed(prog) && Inv(prog, Snap(), u)
      requires exists recv :: edge.callee == prog.resolveCallee(recv, edge.site)
      requires edge !in callEdges
      modifies this
      decreases |prog.methods - reachable|, 1
      ensures old(callEdges) + {edge} <= callEdges
      ensures edge in callEdges && entryMethods == old(entryMethods)
      ensures Inv(prog, Snap(), u) && Extends(old(Snap()), Snap())
    {
      ghost var a := Snap();
      callEdges := callEdges + {edge};
      ghost var u' := u.(edges := u.edges + {edge});
      ExtendsGrows(a, Snap());
      InvGrows(prog, a, Snap(), u');
      AddReachable(edge.callee, u');
      ghost var b := Snap();
      ConnectCall(edge.site, edge.callee);
      InvStep(prog, b, Snap(), u');
      assert EdgeWired(prog, Snap(), edge);
      InvRelease(prog, Snap(), u', u);
    }

    /**
     * Adds objs to the points-to set of p and returns the objects that were
     * new there; when any were, queues them at every successor of p.
     */
    method Propagate(p: Pointer, objs: set<Obj>) returns (delta: set<Obj>)
      modifies this
      ensures delta == Delta(old(pt), p, objs)
      ensures pt == old(pt)[p := PtOf(old(pt), p) + objs]
      ensures old(workList) <= workList
      ensures QueuedForSuccs(pfg, p, delta, workList[|old(workList)|..])
      ensures pfg == old(pfg) && reachable == old(reachable) && callEdges == old(callEdges)
      ensures entryMethods == old(entryMethods)
    {
      delta := {};
      pt := pt[p := PtOf(pt, p)];
      var rest := objs;
      while rest != {}
        invariant rest <= objs
        invariant p in pt && pt == old(pt)[p := pt[p]]
        invariant pt[p] == PtOf(old(pt), p) + (objs - rest)
        invariant delta == (objs - rest) - PtOf(old(pt), p)
        invariant workList == old(workList) && pfg == old(pfg)
        invariant reachable == old(reachable) && callEdges == old(callEdges) && entryMethods == old(entryMethods)
        decreases rest
      {
        var o :| o in rest;
        if o !in pt[p] {
          pt := pt[p := pt[p] + {o}];
          delta := delta + {o};
        }
        rest := rest - {o};
      }
      assert objs - rest == objs;
      if delta != {} {
        var succs := Succs(pfg, p);
        ghost var added: seq<Entry<Pointer, Obj>> := [];
        while succs != {}
          invariant succs <= Succs(pfg, p)
          invariant workList == old(workList) + added
          invariant forall e :: e in added <==> e.objs == delta && e.pointer in Succs(pfg, p) - succs
          invariant pt == old(pt)[p := PtOf(old(pt), p) + objs]
          invariant pfg == old(pfg) && reachable == old(reachable) && callEdges == old(callEdges)
          invariant entryMethods == old(entryMethods)
          decreases succs
        {
          var t :| t in succs;
          workList := workList + [Entry(t, delta)];
          added := added + [Entry(t, delta)];
          succs := succs - {t};
        }
        assert workList[|old(workList)|..] == added;
      } else {
        assert workList[|old(workList)|..] == [];
      }
    }

    /** y -> o.f for every x.f = y. */
    method AddStoreEdges(stores: seq<FieldStore>, o: Obj)
      requires Flows()
      modifies this
      ensures pfg == old(pfg) + StoreEdges(stores, o, |stores|)
      ensures pt == old(pt) && old(workList) <= workList
      ensures QueuedForNewEdges(pt, old(pfg), pfg, workList[|old(workList)|..])
      ensures reachable == old(reachable) && callEdges == old(callEdges) && entryMethods == old(entryMethods)
      ensures Flows()
    {
      for i := 0 to |stores|
        invariant pfg == old(pfg) + StoreEdges(stores, o, i)
        invariant pt == old(pt) && old(workList) <= workList
        invariant QueuedForNewEdges(pt, old(pfg), pfg, workList[|old(workList)|..])
        invariant reachable == old(reachable) && callEdges == old(callEdges) && entryMethods == old(entryMethods)
        invariant Flows()
      {
        ghost var g, w := pfg, workList;
        AddPFGEdge(VarPtr(stores[i].rhs), InstanceField(o, stores[i].field));
        QueuedForNewEdgesStep(pt, old(pfg), g, old(workList), w, workList, VarPtr(stores[i].rhs), InstanceField(o, stores[i].field));
      }
    }

    /** o.f -> y for every y = x.f. */
    method AddLoadEdges(loads: seq<FieldLoad>, o: Obj)
      requires Flows()
      modifies this
      ensures pfg == old(pfg) + LoadEdges(loads, o, |loads|)
      ensures pt == old(pt) && old(workList) <= workList
      ensures QueuedForNewEdges(pt, old(pfg), pfg, workList[|old(workList)|..])
      ensures reachable == old(reachable) && callEdges == old(callEdges) && entryMethods == old(entryMethods)
      ensures Flows()
    {
      for i := 0 to |loads|
        invariant pfg == old(pfg) + LoadEdges(loads, o, i)
        invariant pt == old(pt) && old(workList) <= workList
        invariant QueuedForNewEdges(pt, old(pfg), pfg, workList[|old(workList)|..])
        invariant reachable == old(reachable) && callEdges == old(callEdges) && entryMethods == old(entryMethods)
        invariant Flows()
      {
        ghost var g, w := pfg, workList;
        AddPFGEdge(InstanceField(o, loads[i].field), VarPtr(loads[i].lhs));
        QueuedForNewEdgesStep(pt, old(pfg), g, old(workList), w, workList, InstanceField(o, loads[i].field), VarPtr(loads[i].lhs));
      }
    }

    /** y -> o[*] for every x[*] = y. */
    method AddArrayStoreEdges(rhss: seq<Var>, o: Obj)
      requires Flows()
      modifies this
      ensures pfg == old(pfg) + ArrayStoreEdges(rhss, o, |rhss|)
      ensures pt == old(pt) && old(workList) <= workList
      ensures QueuedForNewEdges(pt, old(pfg), pfg, workList[|old(workList)|..])
      ensures reachable == old(reachable) && callEdges == old(callEdges) && entryMethods == old(entryMethods)
      ensures Flows()
    {
      for i := 0 to |rhss|
        invariant pfg == old(pfg) + ArrayStoreEdges(rhss, o, i)
        invariant pt == old(pt) && old(workList) <= workList
        invariant QueuedForNewEdges(pt, old(pfg), pfg, workList[|old(workList)|..])
        invariant reachable == old(reachable) && callEdges == old(callEdges) && entryMethods == old(entryMethods)
        invariant Flows()
      {
        ghost var g, w := pfg, workList;
        AddPFGEdge(VarPtr(rhss[i]), ArrayIndex(o));
        QueuedForNewEdgesStep(pt, old(pfg), g, old(workList), w, workList, VarPtr(rhss[i]), ArrayIndex(o));
      }
    }

    /** o[*] -> y for every y = x[*]. */
    method AddArrayLoadEdges(lhss: seq<Var>, o: Obj)
      requires Flows()
      modifies this
      ensures pfg == old(pfg) + ArrayLoadEdges(lhss, o, |lhss|)
      ensures pt == old(pt) && old(workList) <= workList
      ensures QueuedForNewEdges(pt, old(pfg), pfg, workList[|old(workList)|..])
      ensures reachable == old(reachable) && callEdges == old(callEdges) && entryMethods == old(entryMethods)
      ensures Flows()
    {
      for i := 0 to |lhss|
        invariant pfg == old(pfg) + ArrayLoadEdges(lhss, o, i)
        invariant pt == old(pt) && old(workList) <= workList
        invariant QueuedForNewEdges(pt, old(pfg), pfg, workList[|old(workList)|..])
        invariant reachable == old(reachable) && callEdges == old(callEdges) && entryMethods == old(entryMethods)
        invariant Flows()
      {
        ghost var g, w := pfg, workList;
        AddPFGEdge(ArrayIndex(o), VarPtr(lhss[i]));
        QueuedForNewEdgesStep(pt, old(pfg), g, old(workList), w, workList, ArrayIndex(o), VarPtr(lhss[i]));
      }
    }

    /** For a new object o of x: its field and array edges. */
    method ReplayFields(x: Var, o: Obj)
      requires Flows()
      modifies this
      ensures pfg == old(pfg) + FieldFlow(prog, x, o)
      ensures pt == old(pt) && old(workList) <= workList
      ensures QueuedForNewEdges(pt, old(pfg), pfg, workList[|old(workList)|..])
      ensures reachable == old(reachable) && callEdges == old(callEdges) && entryMethods == old(entryMethods)
      ensures Flows()
    {
      AddStoreEdges(prog.storeFields(x), o);
      ghost var g1, w1 := pfg, workList;
      AddLoadEdges(prog.loadFields(x), o);
      QueuedForNewEdgesChain(pt, old(pfg), g1, pfg, old(workList), w1, workList);
      ghost var g2, w2 := pfg, workList;
      AddArrayStoreEdges(prog.storeArrays(x), o);
      QueuedForNewEdgesChain(pt, old(pfg), g2, pfg, old(workList), w2, workList);
      ghost var g3, w3 := pfg, workList;
      AddArrayLoadEdges(prog.loadArrays(x), o);
      QueuedForNewEdgesChain(pt, old(pfg), g3, pfg, old(workList), w3, workList);
    }

    /**
     * Processes the calls on receiver variable x for its new object o: queues
     * o at the callee's `this`, and when the call edge is new, makes the callee
     * reachable and adds its argument and return edges.
     */
    method ProcessCall(x: Var, o: Obj, ghost u: Unfinished)
      requires WellFormed(prog) && Inv(prog, Snap(), u)
      modifies this
      ensures forall site :: site in prog.invokesOn(x) ==> CallWired(prog, Snap(), site, o)
      ensures pt == old(pt) && entryMethods == old(entryMethods)
      ensures Inv(prog, Snap(), u) && Extends(old(Snap()), Snap())
    {
      var sites := prog.invokesOn(x);
      for k := 0 to |sites|
        invariant pt == old(pt) && entryMethods == old(entryMethods)
        invariant Inv(prog, Snap(), u) && Extends(old(Snap()), Snap())
        invariant forall j :: 0 <= j < k ==> CallWired(prog, Snap(), sites[j], o)
      {
        ghost var a := Snap();
        var site := sites[k];
        var callee := prog.resolveCallee(Some(o), site);
        Enqueue(VarPtr(prog.thisVar(callee)), {o});
        ghost var b := Snap();
        InvStep(prog, a, b, u);
        var edge := CallEdge(prog.invokes(site).kind, site, callee);
        if edge !in callEdges {
          NewCallEdge(edge, u);
        }
        ExtendsGrows(a, Snap());
        ExtendsGrows(b, Snap());
        assert o in Cov(b, VarPtr(prog.thisVar(callee)));
        forall j | 0 <= j < k + 1
          ensures CallWired(prog, Snap(), sites[j], o)
        {
          if j < k {
            assert CallWired(prog, a, sites[j], o);
          }
        }
      }
      assert forall site :: site in sites ==> exists j :: 0 <= j < |sites| && sites[j] == site;
    }

    /** Everything a new object o of variable x brings: its field and array edges, and its calls. */
    method ReplayObject(x: Var, o: Obj, ghost u: Unfinished)
      requires WellFormed(prog) && Inv(prog, Snap(), u)
      modifies this
      ensures ObjWired(prog, Snap(), x, o)
      ensures pt == old(pt) && entryMethods == old(entryMethods)
      ensures Inv(prog, Snap(), u) && Extends(old(Snap()), Snap())
    {
      ghost var a := Snap();
      ReplayFields(x, o);
      InvStep(prog, a, Snap(), u);
      ProcessCall(x, o, u);
    }

    /**
     * Drains the work list, for at most fuel entries: propagates each entry
     * and, when its pointer is a variable, replays the variable's field, array
     * and call statements for every object new to it.
     */
    method Analyze(fuel: nat) returns (drained: bool)
      requires WellFormed(prog) && Inv(prog, Snap(), NothingUnfinished)
      modifies this
      ensures drained <==> workList == []
      ensures old(reachable) <= reachable && old(callEdges) <= callEdges && entryMethods == old(entryMethods)
      ensures Inv(prog, Snap(), NothingUnfinished)
    {
      var n := fuel;
      while workList != [] && n > 0
        invariant Inv(prog, Snap(), NothingUnfinished)
        invariant old(reachable) <= reachable && old(callEdges) <= callEdges && entryMethods == old(entryMethods)
        decreases n
      {
        ghost var a := Snap();
        var entry := workList[0];
        workList := workList[1..];
        var delta := Propagate(entry.pointer, entry.objs);
        PollKeepsInv(prog, a, Snap(), entry.pointer, entry.objs);
        if entry.pointer.VarPtr? {
          var x := entry.pointer.v;
          var rest := delta;
          while rest != {}
            invariant Inv(prog, Snap(), Unfinished({}, {}, PairsOf(entry.pointer, rest)))
            invariant old(reachable) <= reachable && old(callEdges) <= callEdges && entryMethods == old(entryMethods)
            decreases rest
          {
            var o :| o in rest;
            ReplayObject(x, o, Unfinished({}, {}, PairsOf(entry.pointer, rest)));
            InvRelease(prog, Snap(), Unfinished({}, {}, PairsOf(entry.pointer, rest)),
                       Unfinished({}, {}, PairsOf(entry.pointer, rest - {o})));
            rest := rest - {o};
          }
          InvRelease(prog, Snap(), Unfinished({}, {}, PairsOf(entry.pointer, rest)), NothingUnfinished);
        } else {
          InvRelease(prog, Snap(), Unfinished({}, {}, PairsOf(entry.pointer, delta)), NothingUnfinished);
        }
        n := n - 1;
      }
      drained := workList == [];
    }

    /** Starts the analysis afresh from the entry method. */
    method Initialize(entry: Method)
      requires WellFormed(prog) && entry in prog.methods
      modifies this
      ensures entryMethods == {entry} && entry in reachable
      ensures Inv(prog, Snap(), NothingUnfinished)
    {
      pt := map[];
      pfg := {};
      workList := [];
      reachable := {};
      callEdges := {};
      entryMethods := {entry};
      AddReachable(entry, NothingUnfinished);
    }

    /**
     * Runs the analysis. When the work list drains within the fuel, the
     * points-to sets and the call graph solve the analysis rules.
     */
    method Solve(entry: Method, fuel: nat) returns (drained: bool)
      requires WellFormed(prog) && entry in prog.methods
      modifies this
      ensures entryMethods == {entry} && entry in reachable
      ensures drained ==> workList == [] && IsSolution(prog, entry, pt, reachable, callEdges)
    {
      Initialize(entry);
      drained := Analyze(fuel);
      if drained {
        FixpointIsSolution(prog, Snap(), entry);
      }
    }
  }
}
