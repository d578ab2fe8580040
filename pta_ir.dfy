/**
 * The program as the pointer analyses (A5, A6 and A8 Solver.java) see it:
 * methods with their statements, parameters, `this` and return variables,
 * call sites, and for every variable the field, array and call statements
 * that use it as a base. Tai-e computes these relations while it builds the
 * IR; here they are given.
 *
 * Heap objects are abstract: an allocation site's object as the heap model
 * names it, or a taint object made for a source call and a type. Call-site
 * resolution (CallGraphs.resolveCallee) is a given function of the receiver
 * object and the call site.
 */
module PtaIr {
  import opened Wrappers
  import Cha

  type Var = nat
  type Field = nat
  type Method = nat
  /** An Invoke statement, named by its position in the program. */
  type CallSiteId = nat
  /** A Java type, as the taint configuration names it. */
  type JType = nat

  type CallKind = Cha.CallKind

  /** A heap object: an allocation site's object, or a taint object. */
  datatype Obj = AllocObj(site: nat) | TaintObj(source: CallSiteId, ty: JType)

  /** The invoke expression of a call site: its receiver variable (none for a static call), arguments and result. */
  datatype Invoke = Invoke(isStatic: bool, kind: CallKind, base: Option<Var>, args: seq<Var>, result: Option<Var>)

  /** x.f = y, listed under x. */
  datatype FieldStore = FieldStore(field: Field, rhs: Var)
  /** y = x.f, listed under x. */
  datatype FieldLoad = FieldLoad(lhs: Var, field: Field)

  /**
   * The statements the solvers' statement visitors look at. Instance field
   * stores and loads are visited too, but only the static ones act.
   */
  datatype Stmt =
    | New(lhs: Var, obj: Obj)
    | Copy(lhs: Var, rhs: Var)
    | StoreField(isStatic: bool, field: Field, rhs: Var)
    | LoadField(isStatic: bool, lhs: Var, field: Field)
    | Call(site: CallSiteId)
    | Other

  datatype Program = Program(
    methods: set<Method>,
    body: Method -> seq<Stmt>,
    params: Method -> seq<Var>,
    thisVar: Method -> Var,
    returnVars: Method -> seq<Var>,
    invokes: CallSiteId -> Invoke,
    storeFields: Var -> seq<FieldStore>,
    loadFields: Var -> seq<FieldLoad>,
    /** The right-hand sides y of x[*] = y, listed under x. */
    storeArrays: Var -> seq<Var>,
    /** The left-hand sides y of y = x[*], listed under x. */
    loadArrays: Var -> seq<Var>,
    /** The instance call sites whose receiver is the variable. */
    invokesOn: Var -> seq<CallSiteId>,
    /** The callee of a call site, for a receiver object or (static calls) none. */
    resolveCallee: (Option<Obj>, CallSiteId) -> Method)

  /**
   * What the solvers rely on without checking: a resolved callee is a method
   * of the program, and a call passes as many arguments as it has parameters.
   */
  ghost predicate WellFormed(p: Program)
  {
    && (forall recv, site :: p.resolveCallee(recv, site) in p.methods)
    && (forall recv, site :: |p.invokes(site).args| == |p.params(p.resolveCallee(recv, site))|)
  }
}
