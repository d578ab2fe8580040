/**
 * The context-sensitive elements the solvers of A6/Solver.java and
 * A8/Solver.java work on, as Tai-e's CSManager hands them out: variables,
 * objects, methods and call sites paired with a context, and the pointers
 * made of them. The CSManager interns each pair; here a pair is a value, so
 * two requests for the same pair give the same element.
 *
 * Contexts are abstract. The context selector is a record of functions, with
 * a finite set of contexts it draws from; that set bounds the (context,
 * method) pairs that can become reachable.
 *
 * The call edges of a static and of an instance call, and the PFG edges a
 * call edge or a new object brings, are defined here once, for both solvers.
 */
module CsElements {
  import opened Wrappers
  import opened PtaIr
  import opened PtaCore
  import Cha

  type Context = nat

  datatype CSObj = CSObj(ctx: Context, obj: Obj)
  datatype CSMethod = CSMethod(ctx: Context, meth: Method)
  datatype CSCallSite = CSCallSite(ctx: Context, site: CallSiteId)

  datatype Pointer =
    | CSVar(ctx: Context, v: Var)
    | StaticField(field: Field)
    | InstanceField(base: CSObj, field: Field)
    | ArrayIndex(array: CSObj)

  datatype CallEdge = CallEdge(kind: CallKind, callSite: CSCallSite, callee: CSMethod)

  /**
   * The context selector: the empty context, the callee context of a static
   * call and of an instance call, and the heap context of a new object.
   */
  datatype Selector = Selector(
    empty: Context,
    staticContext: (CSCallSite, Method) -> Context,
    instanceContext: (CSCallSite, CSObj, Method) -> Context,
    heapContext: (CSMethod, Obj) -> Context,
    contexts: set<Context>)

  /** Every context the selector hands out is one of its contexts. */
  ghost predicate SelectorWellFormed(sel: Selector)
  {
    && sel.empty in sel.contexts
    && (forall cs, m :: sel.staticContext(cs, m) in sel.contexts)
    && (forall cs, o, m :: sel.instanceContext(cs, o, m) in sel.contexts)
  }

  /** The (context, method) pairs that can ever be reachable. */
  ghost function Universe(prog: Program, sel: Selector): (r: set<CSMethod>)
  {
    set c, m | c in sel.contexts && m in prog.methods :: CSMethod(c, m)
  }

  /** The STATIC call edge of a static call at site in csm: the callee's context comes from the call site. */
  function StaticEdge(prog: Program, sel: Selector, csm: CSMethod, site: CallSiteId): CallEdge
  {
    var callee := prog.resolveCallee(None, site);
    var csCallSite := CSCallSite(csm.ctx, site);
    CallEdge(Cha.CallKind.STATIC, csCallSite, CSMethod(sel.staticContext(csCallSite, callee), callee))
  }

  /**
   * The call edge of an instance call at site, on a receiver variable in
   * context c, for receiver object o: the call site takes the variable's
   * context, the callee's context comes from the call site and o.
   */
  function InstanceEdge(prog: Program, sel: Selector, c: Context, site: CallSiteId, o: CSObj): CallEdge
  {
    var callee := prog.resolveCallee(Some(o.obj), site);
    var csCallSite := CSCallSite(c, site);
    CallEdge(prog.invokes(site).kind, csCallSite, CSMethod(sel.instanceContext(csCallSite, o, callee), callee))
  }


  /** The edges a_j -> p_j, arguments in context c and parameters in context c', for the first n. */
  function ArgEdges(c: Context, args: seq<Var>, c': Context, params: seq<Var>, n: nat): set<(Pointer, Pointer)>
    requires n <= |args| && n <= |params|
  {
    if n == 0 then {} else ArgEdges(c, args, c', params, n - 1) + {(CSVar(c, args[n - 1]), CSVar(c', params[n - 1]))}
  }

  lemma {:induction false} ArgEdgesMembers(c: Context, args: seq<Var>, c': Context, params: seq<Var>, n: nat,
                                           e: (Pointer, Pointer))
    requires n <= |args| && n <= |params|
    ensures e in ArgEdges(c, args, c', params, n) <==>
              exists j :: 0 <= j < n && e == (CSVar(c, args[j]), CSVar(c', params[j]))
    decreases n
  {
    if n > 0 {
      ArgEdgesMembers(c, args, c', params, n - 1, e);
      var j := n - 1;
      assert e == (CSVar(c, args[j]), CSVar(c', params[j])) ==> e in ArgEdges(c, args, c', params, n);
    }
  }

  /** The edges ret_j -> r, return variables in context c' and the result in context c, for the first n. */
  function RetEdges(c': Context, rets: seq<Var>, c: Context, r: Var, n: nat): set<(Pointer, Pointer)>
    requires n <= |rets|
  {
    if n == 0 then {} else RetEdges(c', rets, c, r, n - 1) + {(CSVar(c', rets[n - 1]), CSVar(c, r))}
  }

  lemma {:induction false} RetEdgesMembers(c': Context, rets: seq<Var>, c: Context, r: Var, n: nat,
                                           e: (Pointer, Pointer))
    requires n <= |rets|
    ensures e in RetEdges(c', rets, c, r, n) <==> exists j :: 0 <= j < n && e == (CSVar(c', rets[j]), CSVar(c, r))
    decreases n
  {
    if n > 0 {
      RetEdgesMembers(c', rets, c, r, n - 1, e);
      var j := n - 1;
      assert e == (CSVar(c', rets[j]), CSVar(c, r)) ==> e in RetEdges(c', rets, c, r, n);
    }
  }

  /**
   * The PFG edges a call edge brings: each argument, in the call site's
   * context, to its parameter, in the callee's context; and, when the call
   * has a result, each return variable to it.
   */
  function CallFlow(prog: Program, e: CallEdge): set<(Pointer, Pointer)>
  {
    var inv := prog.invokes(e.callSite.site);
    var params := prog.params(e.callee.meth);
    var rets := prog.returnVars(e.callee.meth);
    ArgEdges(e.callSite.ctx, inv.args, e.callee.ctx, params, Min(|inv.args|, |params|))
      + (if inv.result.Some? then RetEdges(e.callee.ctx, rets, e.callSite.ctx, inv.result.value, |rets|) else {})
  }

  /** The edges y -> o.f, y in context c, of the first n stores x.f = y on x. */
  function StoreEdges(c: Context, stores: seq<FieldStore>, o: CSObj, n: nat): set<(Pointer, Pointer)>
    requires n <= |stores|
  {
    if n == 0 then {}
    else StoreEdges(c, stores, o, n - 1) + {(CSVar(c, stores[n - 1].rhs), InstanceField(o, stores[n - 1].field))}
  }

  lemma {:induction false} StoreEdgesMembers(c: Context, stores: seq<FieldStore>, o: CSObj, n: nat, e: (Pointer, Pointer))
    requires n <= |stores|
    ensures e in StoreEdges(c, stores, o, n) <==>
              exists j :: 0 <= j < n && e == (CSVar(c, stores[j].rhs), InstanceField(o, stores[j].field))
    decreases n
  {
    if n > 0 {
      StoreEdgesMembers(c, stores, o, n - 1, e);
      var j := n - 1;
      assert e == (CSVar(c, stores[j].rhs), InstanceField(o, stores[j].field)) ==> e in StoreEdges(c, stores, o, n);
    }
  }

  /** The edges o.f -> y, y in context c, of the first n loads y = x.f on x. */
  function LoadEdges(c: Context, loads: seq<FieldLoad>, o: CSObj, n: nat): set<(Pointer, Pointer)>
    requires n <= |loads|
  {
    if n == 0 then {}
    else LoadEdges(c, loads, o, n - 1) + {(InstanceField(o, loads[n - 1].field), CSVar(c, loads[n - 1].lhs))}
  }

  lemma {:induction false} LoadEdgesMembers(c: Context, loads: seq<FieldLoad>, o: CSObj, n: nat, e: (Pointer, Pointer))
    requires n <= |loads|
    ensures e in LoadEdges(c, loads, o, n) <==>
              exists j :: 0 <= j < n && e == (InstanceField(o, loads[j].field), CSVar(c, loads[j].lhs))
    decreases n
  {
    if n > 0 {
      LoadEdgesMembers(c, loads, o, n - 1, e);
      var j := n - 1;
      assert e == (InstanceField(o, loads[j].field), CSVar(c, loads[j].lhs)) ==> e in LoadEdges(c, loads, o, n);
    }
  }

  /** The edges y -> o[*], y in context c, of the first n array stores x[*] = y. */
  function ArrayStoreEdges(c: Context, rhss: seq<Var>, o: CSObj, n: nat): set<(Pointer, Pointer)>
    requires n <= |rhss|
  {
    if n == 0 then {} else ArrayStoreEdges(c, rhss, o, n - 1) + {(CSVar(c, rhss[n - 1]), ArrayIndex(o))}
  }

  lemma {:induction false} ArrayStoreEdgesMembers(c: Context, rhss: seq<Var>, o: CSObj, n: nat, e: (Pointer, Pointer))
    requires n <= |rhss|
    ensures e in ArrayStoreEdges(c, rhss, o, n) <==> exists j :: 0 <= j < n && e == (CSVar(c, rhss[j]), ArrayIndex(o))
    decreases n
  {
    if n > 0 {
      ArrayStoreEdgesMembers(c, rhss, o, n - 1, e);
      var j := n - 1;
      assert e == (CSVar(c, rhss[j]), ArrayIndex(o)) ==> e in ArrayStoreEdges(c, rhss, o, n);
    }
  }

  /** The edges o[*] -> y, y in context c, of the first n array loads y = x[*]. */
  function ArrayLoadEdges(c: Context, lhss: seq<Var>, o: CSObj, n: nat): set<(Pointer, Pointer)>
    requires n <= |lhss|
  {
    if n == 0 then {} else ArrayLoadEdges(c, lhss, o, n - 1) + {(ArrayIndex(o), CSVar(c, lhss[n - 1]))}
  }

  lemma {:induction false} ArrayLoadEdgesMembers(c: Context, lhss: seq<Var>, o: CSObj, n: nat, e: (Pointer, Pointer))
    requires n <= |lhss|
    ensures e in ArrayLoadEdges(c, lhss, o, n) <==> exists j :: 0 <= j < n && e == (ArrayIndex(o), CSVar(c, lhss[j]))
    decreases n
  {
    if n > 0 {
      ArrayLoadEdgesMembers(c, lhss, o, n - 1, e);
      var j := n - 1;
      assert e == (ArrayIndex(o), CSVar(c, lhss[j])) ==> e in ArrayLoadEdges(c, lhss, o, n);
    }
  }

  /** The (variable pointer, object) pairs a propagation to p leaves to be wired. */
  function PairsOf(p: Pointer, objs: set<CSObj>): (r: set<(Pointer, CSObj)>)
    ensures forall q, o :: (q, o) in r <==> q == p && p.CSVar? && o in objs
  {
    if p.CSVar? then set o | o in objs :: (p, o) else {}
  }

  /** Once objs reach p, every object a variable has gained is one of the pairs left to be wired. */
  lemma NewObjsArePairs(pt: map<Pointer, set<CSObj>>, p: Pointer, objs: set<CSObj>)
    ensures forall c: Context, x: Var, o: CSObj ::
              o in PtOf(pt[p := PtOf(pt, p) + objs], CSVar(c, x)) && (CSVar(c, x), o) !in PairsOf(p, Delta(pt, p, objs))
              ==> o in PtOf(pt, CSVar(c, x))
  {
  }

  /** The PFG edges a new object o of variable x, in context c, brings through x's field and array accesses. */
  function FieldFlow(prog: Program, c: Context, x: Var, o: CSObj): set<(Pointer, Pointer)>
  {
    StoreEdges(c, prog.storeFields(x), o, |prog.storeFields(x)|)
      + LoadEdges(c, prog.loadFields(x), o, |prog.loadFields(x)|)
      + ArrayStoreEdges(c, prog.storeArrays(x), o, |prog.storeArrays(x)|)
      + ArrayLoadEdges(c, prog.loadArrays(x), o, |prog.loadArrays(x)|)
  }
}
