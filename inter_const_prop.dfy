/**
 * Interprocedural constant propagation (A7/InterConstantPropagation.java): the
 * edge transfers of the interprocedural control-flow graph and the node
 * transfers, which resolve field and array loads through the points-to sets
 * of a pointer analysis and re-queue the loads a store may reach.
 *
 * The pointer-analysis result, the statements of the interprocedural CFG and
 * the out facts the interprocedural solver currently holds are inputs (Env).
 * The out fact the solver holds for the statement being transferred is the
 * `out` object itself.
 */
module InterConstProp {
  import opened JavaInt
  import opened Wrappers
  import opened Ir
  import opened ConstProp

  /** The ints a value may stand for: none for Undef, one for a constant, all for NAC. */
  ghost predicate Represents(v: Value, n: Int32)
  {
    v.NAC? || v == Const(n)
  }

  /** isIndexIntersect: may two array indices with these values be equal? */
  function IsIndexIntersect(v1: Value, v2: Value): bool
  {
    if v1.Undef? || v2.Undef? then false
    else if v1.Const? && v2.Const? then v1.constant == v2.constant
    else true
  }

  /** Two index values intersect exactly when some int is represented by both. */
  lemma IndexIntersectMeansCommonInt(v1: Value, v2: Value)
    ensures IsIndexIntersect(v1, v2) <==> exists n: Int32 :: Represents(v1, n) && Represents(v2, n)
  {
    if IsIndexIntersect(v1, v2) {
      var n: Int32 := if v1.Const? then v1.constant else if v2.Const? then v2.constant else 0;
      assert Represents(v1, n) && Represents(v2, n);
    }
  }

  lemma IndexIntersectIsSymmetric(v1: Value, v2: Value)
    ensures IsIndexIntersect(v1, v2) == IsIndexIntersect(v2, v1)
  {
  }

  /** Upper bounds and the least upper bound (the meet) of a set of values. */
  ghost predicate IsUpperBound(vals: set<Value>, u: Value)
  {
    forall x :: x in vals ==> Below(x, u)
  }

  ghost predicate IsMeetOf(vals: set<Value>, v: Value)
  {
    IsUpperBound(vals, v) && forall u :: IsUpperBound(vals, u) ==> Below(v, u)
  }

  /** Meeting one more value into the meet of a set gives the meet of the larger set. */
  lemma MeetStep(vals: set<Value>, v: Value, x: Value)
    requires IsMeetOf(vals, v)
    ensures IsMeetOf(vals + {x}, MeetValue(v, x))
  {
    var m := MeetValue(v, x);
    forall u | IsUpperBound(vals + {x}, u)
      ensures Below(m, u)
    {
      assert IsUpperBound(vals, u);
    }
  }

  /** A set has one meet. */
  lemma MeetIsUnique(vals: set<Value>, v: Value, w: Value)
    requires IsMeetOf(vals, v) && IsMeetOf(vals, w)
    ensures v == w
  {
    assert Below(v, w) && Below(w, v);
  }

  /** The meet of a finite set of values; Undef for the empty set. */
  ghost function MeetOfSet(vals: set<Value>): (r: Value)
    ensures IsMeetOf(vals, r)
    decreases vals
  {
    if vals == {} then Undef
    else
      var x :| x in vals;
      var rest := MeetOfSet(vals - {x});
      assert vals == (vals - {x}) + {x};
      MeetStep(vals - {x}, rest, x);
      MeetValue(rest, x)
  }

  /** transferNormalEdge: the fact flows along an intraprocedural edge unchanged. */
  function TransferNormalEdge(out: Fact): (r: Fact)
    ensures forall v :: Lookup(r, v) == Lookup(out, v)
  {
    out
  }

  /**
   * transferCallToReturnEdge: the fact bypasses the call, except for the
   * variable the call assigns, which the return edge supplies instead.
   */
  function TransferCallToReturnEdge(callSite: Stmt, out: Fact): (r: Fact)
    ensures Normal(out) ==> Normal(r)
    ensures forall v :: Lookup(r, v) == if DefVar(callSite) == Some(v) then Undef else Lookup(out, v)
  {
    match DefVar(callSite)
    case Some(v) => out - {v}
    case None => out
  }

  /** The argument bound to v among the first |args| parameters: the last position where v occurs. */
  function BoundArg(args: seq<Var>, params: seq<Var>, v: Var): Option<Var>
    requires |args| <= |params|
    decreases |args|
  {
    if args == [] then None
    else if params[|args| - 1] == v then Some(args[|args| - 1])
    else BoundArg(args[..|args| - 1], params, v)
  }

  /** With distinct parameters, the i-th parameter is bound to the i-th argument, and nothing else is bound. */
  lemma {:induction false} BoundArgOfDistinctParams(args: seq<Var>, params: seq<Var>, v: Var)
    requires |args| <= |params|
    requires forall i, j :: 0 <= i < j < |params| ==> params[i] != params[j]
    ensures forall i :: 0 <= i < |args| ==> BoundArg(args, params, params[i]) == Some(args[i])
    ensures BoundArg(args, params, v).None? <==> v !in params[..|args|]
    decreases |args|
  {
    if args != [] {
      var n := |args| - 1;
      BoundArgOfDistinctParams(args[..n], params, v);
      assert params[..|args|] == params[..n] + [params[n]];
      forall i | 0 <= i < |args|
        ensures BoundArg(args, params, params[i]) == Some(args[i])
      {
        if i < n {
          BoundArgOfDistinctParams(args[..n], params, params[i]);
          assert args[..n][i] == args[i];
        }
      }
    }
  }

  /** transferCallEdge: a fresh fact binding each parameter to its argument's value at the call site. */
  method TransferCallEdge(args: seq<Var>, params: seq<Var>, callSiteOut: Fact) returns (r: Fact)
    requires |args| <= |params|
    ensures Normal(r)
    ensures forall v :: Lookup(r, v) == match BoundArg(args, params, v)
                                       case Some(a) => Lookup(callSiteOut, a)
                                       case None => Undef
  {
    r := map[];
    var i := 0;
    while i < |args|
      invariant 0 <= i <= |args|
      invariant Normal(r)
      invariant forall v :: Lookup(r, v) == match BoundArg(args[..i], params, v)
                                         case Some(a) => Lookup(callSiteOut, a)
                                         case None => Undef
    {
      r := Updated(r, params[i], Lookup(callSiteOut, args[i]));
      assert args[..i + 1][..i] == args[..i];
      i := i + 1;
    }
    assert args[..i] == args;
  }

  /** The values of the return variables in the callee's exit fact. */
  ghost function ReturnedValues(returnVars: seq<Var>, returnOut: Fact): set<Value>
  {
    set x | x in returnVars :: Lookup(returnOut, x)
  }

  /**
   * transferReturnEdge: a fresh fact that, when the call assigns a variable,
   * binds it to the meet of the values of all return variables; otherwise empty.
   */
  method TransferReturnEdge(result: Option<Var>, returnVars: seq<Var>, returnOut: Fact) returns (r: Fact)
    ensures Normal(r)
    ensures result.None? ==> r == map[]
    ensures result.Some? ==> IsMeetOf(ReturnedValues(returnVars, returnOut), Lookup(r, result.value))
    ensures forall v :: Some(v) != result ==> Lookup(r, v) == Undef
  {
    r := map[];
    if result.Some? {
      var lhs := result.value;
      var i := 0;
      while i < |returnVars|
        invariant 0 <= i <= |returnVars|
        invariant Normal(r)
        invariant IsMeetOf(ReturnedValues(returnVars[..i], returnOut), Lookup(r, lhs))
        invariant forall v :: v != lhs ==> Lookup(r, v) == Undef
      {
        MeetStep(ReturnedValues(returnVars[..i], returnOut), Lookup(r, lhs), Lookup(returnOut, returnVars[i]));
        assert returnVars[..i + 1] == returnVars[..i] + [returnVars[i]];
        assert ReturnedValues(returnVars[..i + 1], returnOut) ==
               ReturnedValues(returnVars[..i], returnOut) + {Lookup(returnOut, returnVars[i])};
        r := Updated(r, lhs, MeetValue(Lookup(r, lhs), Lookup(returnOut, returnVars[i])));
        i := i + 1;
      }
      assert returnVars[..i] == returnVars;
    }
  }

  /**
   * transferCallNode: a call node passes its in fact through; `out` is left
   * alone when it equals `in`, and otherwise receives `in`'s keys.
   */
  method TransferCallNode(input: CPFact, out: CPFact) returns (changed: bool)
    requires input.Valid() && out.Valid()
    modifies out
    ensures out.Valid()
    ensures changed <==> old(out.entries) != old(input.entries)
    ensures out.entries == if changed then old(out.entries) + old(input.entries) else old(out.entries)
  {
    if out.entries == input.entries {
      return false;
    }
    var _ := out.CopyFrom(input);
    changed := true;
  }

  type Obj = nat

  /**
   * What the node transfers read besides their facts: the pointer-analysis
   * result (points-to sets, its variables, and each variable's field and
   * array loads and stores), the statements of the interprocedural CFG, the
   * out facts the solver holds, and field resolution.
   */
  datatype Env = Env(
    pointsTo: Var -> set<Obj>,
    vars: seq<Var>,
    storeFields: Var -> seq<Stmt>,
    loadFields: Var -> seq<Stmt>,
    storeArrays: Var -> seq<Stmt>,
    loadArrays: Var -> seq<Stmt>,
    icfg: seq<Stmt>,
    outFact: Stmt -> Fact,
    resolve: FieldRef -> Field)

  /** Two variables may alias when their points-to sets share an object. */
  predicate Aliased(env: Env, a: Var, b: Var)
  {
    env.pointsTo(a) * env.pointsTo(b) != {}
  }

  datatype AccessKind = StoreFieldsOf | LoadFieldsOf | StoreArraysOf | LoadArraysOf

  function AccessesOf(env: Env, k: AccessKind, v: Var): seq<Stmt>
  {
    match k
    case StoreFieldsOf => env.storeFields(v)
    case LoadFieldsOf => env.loadFields(v)
    case StoreArraysOf => env.storeArrays(v)
    case LoadArraysOf => env.loadArrays(v)
  }

  /** The accesses of kind k through the variables of vs that may alias base, in iteration order. */
  function AliasedAccesses(env: Env, base: Var, vs: seq<Var>, k: AccessKind): seq<Stmt>
    decreases |vs|
  {
    if vs == [] then []
    else
      var last := vs[|vs| - 1];
      AliasedAccesses(env, base, vs[..|vs| - 1], k) + (if Aliased(env, base, last) then AccessesOf(env, k, last) else [])
  }

  lemma {:induction false} AliasedAccessesMembers(env: Env, base: Var, vs: seq<Var>, k: AccessKind, s: Stmt)
    ensures s in AliasedAccesses(env, base, vs, k) <==>
            exists v :: v in vs && Aliased(env, base, v) && s in AccessesOf(env, k, v)
    decreases |vs|
  {
    if vs != [] {
      var n := |vs| - 1;
      AliasedAccessesMembers(env, base, vs[..n], k, s);
      assert vs == vs[..n] + [vs[n]];
      if s in AliasedAccesses(env, base, vs, k) && s !in AliasedAccesses(env, base, vs[..n], k) {
        assert vs[n] in vs && Aliased(env, base, vs[n]) && s in AccessesOf(env, k, vs[n]);
      }
    }
  }

  /** Which loads or stores a transfer looks for. */
  datatype Query =
    | StaticStoresTo(ref: FieldRef)      // a static load: static stores of the same field declared in the same class
    | InstanceStoresTo(ref: FieldRef)    // an instance load: instance stores of the same field
    | StaticLoadsOf(ref: FieldRef)       // a static store: static loads of the same field
    | InstanceLoadsOf(ref: FieldRef)     // an instance store: loads of the same field declared in the same class
    | ArrayStoresTo(loadIndex: Value, inIndex: Value)   // an array load: stores whose index may equal its own
    | ArrayLoadsOf(storeIndex: Value, inIndex: Value)   // an array store: loads whose index may equal its own

  /** The value of s's index variable in the solver's out fact for s. */
  function IndexValue(env: Env, s: Stmt): Value
  {
    match s
    case LoadArray(_, _, _, i) => Lookup(env.outFact(s), i)
    case StoreArray(_, _, i, _) => Lookup(env.outFact(s), i)
    case _ => Undef
  }

  predicate Matches(env: Env, q: Query, s: Stmt)
  {
    match q
    case StaticStoresTo(ref) =>
      s.StoreField? && s.access.StaticFieldAccess? && env.resolve(s.access.ref) == env.resolve(ref)
      && s.access.ref.declaringClass == ref.declaringClass
    case InstanceStoresTo(ref) =>
      s.StoreField? && s.access.InstanceFieldAccess? && env.resolve(s.access.ref) == env.resolve(ref)
    case StaticLoadsOf(ref) =>
      s.LoadField? && s.access.StaticFieldAccess? && env.resolve(s.access.ref) == env.resolve(ref)
    case InstanceLoadsOf(ref) =>
      s.LoadField? && env.resolve(s.access.ref) == env.resolve(ref) && s.access.ref.declaringClass == ref.declaringClass
    case ArrayStoresTo(loadIndex, inIndex) =>
      s.StoreArray? && (IsIndexIntersect(loadIndex, IndexValue(env, s)) || IsIndexIntersect(IndexValue(env, s), inIndex))
    case ArrayLoadsOf(storeIndex, inIndex) =>
      s.LoadArray? && (IsIndexIntersect(IndexValue(env, s), storeIndex) || IsIndexIntersect(IndexValue(env, s), inIndex))
  }

  /** The value a store writes, as the solver's out fact for the store has it. */
  function StoredValue(env: Env, s: Stmt): Value
  {
    match s
    case StoreField(_, _, x) => Lookup(env.outFact(s), x)
    case StoreArray(_, _, _, x) => Lookup(env.outFact(s), x)
    case _ => Undef
  }

  /** The values written by the statements of ss that match q. */
  ghost function MatchedValues(env: Env, q: Query, ss: seq<Stmt>): set<Value>
  {
    set s | s in ss && Matches(env, q, s) :: StoredValue(env, s)
  }

  lemma MatchedValuesAppend(env: Env, q: Query, a: seq<Stmt>, b: seq<Stmt>)
    ensures MatchedValues(env, q, a + b) == MatchedValues(env, q, a) + MatchedValues(env, q, b)
  {
  }

  /** The values written by a prefix of ss one statement longer. */
  lemma MatchedValuesSnoc(env: Env, q: Query, ss: seq<Stmt>, j: nat)
    requires j < |ss|
    ensures MatchedValues(env, q, ss[..j + 1]) ==
      MatchedValues(env, q, ss[..j]) + (if Matches(env, q, ss[j]) then {StoredValue(env, ss[j])} else {})
  {
    assert ss[..j + 1] == ss[..j] + [ss[j]];
    MatchedValuesAppend(env, q, ss[..j], [ss[j]]);
  }

  /** Meeting in the next statement of ss, when it matches, extends the meet over a prefix of ss by one. */
  lemma MatchStep(env: Env, q: Query, ss: seq<Stmt>, j: nat, seen: set<Value>, val: Value)
    requires j < |ss| && IsMeetOf(seen + MatchedValues(env, q, ss[..j]), val)
    ensures IsMeetOf(seen + MatchedValues(env, q, ss[..j + 1]),
                     if Matches(env, q, ss[j]) then MeetValue(val, StoredValue(env, ss[j])) else val)
  {
    var before := seen + MatchedValues(env, q, ss[..j]);
    MatchedValuesSnoc(env, q, ss, j);
    if Matches(env, q, ss[j]) {
      var x := StoredValue(env, ss[j]);
      MeetStep(before, val, x);
      assert seen + MatchedValues(env, q, ss[..j + 1]) == before + {x};
    } else {
      assert seen + MatchedValues(env, q, ss[..j + 1]) == before;
    }
  }

  /** Meets the written values of the matching statements of ss into val. */
  method MeetMatching(env: Env, q: Query, ss: seq<Stmt>, ghost seen: set<Value>, val: Value) returns (val': Value)
    requires IsMeetOf(seen, val)
    ensures IsMeetOf(seen + MatchedValues(env, q, ss), val')
  {
    val' := val;
    var j := 0;
    assert seen + MatchedValues(env, q, ss[..0]) == seen;
    while j < |ss|
      invariant 0 <= j <= |ss|
      invariant IsMeetOf(seen + MatchedValues(env, q, ss[..j]), val')
    {
      MatchStep(env, q, ss, j, seen, val');
      if Matches(env, q, ss[j]) {
        val' := MeetValue(val', StoredValue(env, ss[j]));
      }
      j := j + 1;
    }
    assert ss[..j] == ss;
  }

  /**
   * The loop over the pointer analysis's variables: for each one that may
   * alias base, meet in the values of its matching accesses of kind k.
   */
  method MeetOverAliases(env: Env, q: Query, base: Var, k: AccessKind) returns (val: Value)
    ensures val == MeetOfSet(MatchedValues(env, q, AliasedAccesses(env, base, env.vars, k)))
  {
    val := Undef;
    var i := 0;
    while i < |env.vars|
      invariant 0 <= i <= |env.vars|
      invariant IsMeetOf(MatchedValues(env, q, AliasedAccesses(env, base, env.vars[..i], k)), val)
    {
      var v := env.vars[i];
      ghost var seen := MatchedValues(env, q, AliasedAccesses(env, base, env.vars[..i], k));
      AliasedAccessesSnoc(env, base, env.vars, i, k);
      if Aliased(env, base, v) {
        val := MeetMatching(env, q, AccessesOf(env, k, v), seen, val);
        MatchedValuesAppend(env, q, AliasedAccesses(env, base, env.vars[..i], k), AccessesOf(env, k, v));
      }
      i := i + 1;
    }
    assert env.vars[..i] == env.vars;
    MeetIsUnique(MatchedValues(env, q, AliasedAccesses(env, base, env.vars, k)), val,
                 MeetOfSet(MatchedValues(env, q, AliasedAccesses(env, base, env.vars, k))));
  }

  lemma AliasedAccessesSnoc(env: Env, base: Var, vs: seq<Var>, i: nat, k: AccessKind)
    requires i < |vs|
    ensures AliasedAccesses(env, base, vs[..i + 1], k) ==
      AliasedAccesses(env, base, vs[..i], k) + (if Aliased(env, base, vs[i]) then AccessesOf(env, k, vs[i]) else [])
  {
    assert vs[..i + 1][..i] == vs[..i];
  }

  /** Appends the statements of ss that match q to the re-queued ones. */
  method RequeueMatching(env: Env, q: Query, ss: seq<Stmt>, requeued: seq<Stmt>) returns (requeued': seq<Stmt>)
    ensures forall s :: s in requeued' <==> s in requeued || (s in ss && Matches(env, q, s))
  {
    requeued' := requeued;
    var j := 0;
    while j < |ss|
      invariant 0 <= j <= |ss|
      invariant forall s :: s in requeued' <==> s in requeued || (s in ss[..j] && Matches(env, q, s))
    {
      assert ss[..j + 1] == ss[..j] + [ss[j]];
      if Matches(env, q, ss[j]) {
        requeued' := requeued' + [ss[j]];
      }
      j := j + 1;
    }
    assert ss[..j] == ss;
  }

  /** The loop over the pointer analysis's variables that re-queues the matching loads through aliases of base. */
  method RequeueOverAliases(env: Env, q: Query, base: Var, k: AccessKind) returns (requeued: seq<Stmt>)
    ensures forall s :: s in requeued <==> s in AliasedAccesses(env, base, env.vars, k) && Matches(env, q, s)
  {
    requeued := [];
    var i := 0;
    while i < |env.vars|
      invariant 0 <= i <= |env.vars|
      invariant forall s :: s in requeued <==> s in AliasedAccesses(env, base, env.vars[..i], k) && Matches(env, q, s)
    {
      var v := env.vars[i];
      AliasedAccessesSnoc(env, base, env.vars, i, k);
      if Aliased(env, base, v) {
        requeued := RequeueMatching(env, q, AccessesOf(env, k, v), requeued);
      }
      i := i + 1;
    }
    assert env.vars[..i] == env.vars;
  }

  /**
   * The value a load reads: the meet of the values written by the stores it
   * may read from. A static load reads static stores of the same field in the
   * same class; an instance load reads instance stores of the same field
   * through any variable that may alias its base; an array load reads array
   * stores through aliases of its base whose index may equal its own, judged
   * by the load's out fact or its in fact.
   */
  ghost function LoadedValue(env: Env, s: Stmt, inFact: Fact, outFact: Fact): Value
    requires s.LoadField? || s.LoadArray?
  {
    match s
    case LoadField(_, _, access) =>
      if access.StaticFieldAccess? then MeetOfSet(MatchedValues(env, StaticStoresTo(access.ref), env.icfg))
      else MeetOfSet(MatchedValues(env, InstanceStoresTo(access.ref),
                                   AliasedAccesses(env, access.base, env.vars, StoreFieldsOf)))
    case LoadArray(_, _, base, i) =>
      MeetOfSet(MatchedValues(env, ArrayStoresTo(Lookup(outFact, i), Lookup(inFact, i)),
                              AliasedAccesses(env, base, env.vars, StoreArraysOf)))
  }

  /**
   * The loads a store sends back to the solver's work list: for a static
   * store, the static loads of the same field; for an instance store, the
   * loads of the same field in the same class through aliases of its base;
   * for an array store, the array loads through aliases of its base whose
   * index may equal the store's, judged by the store's out fact or its in fact.
   */
  ghost predicate Requeues(env: Env, s: Stmt, inFact: Fact, outFact: Fact, t: Stmt)
  {
    match s
    case StoreField(_, access, _) =>
      if access.StaticFieldAccess? then t in env.icfg && Matches(env, StaticLoadsOf(access.ref), t)
      else t in AliasedAccesses(env, access.base, env.vars, LoadFieldsOf) && Matches(env, InstanceLoadsOf(access.ref), t)
    case StoreArray(_, base, i, _) =>
      t in AliasedAccesses(env, base, env.vars, LoadArraysOf)
      && Matches(env, ArrayLoadsOf(Lookup(outFact, i), Lookup(inFact, i)), t)
    case _ => false
  }

  /** The intraprocedural node transfer of constant propagation, which the other statements fall back on. */
  ghost function FallBack(s: Stmt, inFact: Fact, outFact: Fact): Fact
  {
    var t := TransferFact(s, inFact);
    if t != outFact then outFact + t else outFact
  }

  /**
   * transferNonCallNode. A field load into a variable that cannot hold an int
   * copies `in` into `out`. A field load into an int variable and an array
   * load copy `in` into `out` and set the loaded variable to LoadedValue;
   * either reports whether `out` changed. Every other statement, stores
   * included, uses constant propagation's node transfer; stores first
   * re-queue the loads they may reach.
   */
  method TransferNonCallNode(env: Env, s: Stmt, input: CPFact, out: CPFact) returns (changed: bool, requeued: seq<Stmt>)
    requires input.Valid() && out.Valid()
    modifies out
    ensures out.Valid()
    ensures s.LoadField? && !CanHoldInt(s.lhs) ==> out.entries == old(out.entries) + old(input.entries)
    ensures (s.LoadField? && CanHoldInt(s.lhs)) || s.LoadArray? ==>
      out.entries == Updated(old(out.entries) + old(input.entries), s.lhs,
                             LoadedValue(env, s, old(input.entries), old(out.entries)))
    ensures s.LoadField? || s.LoadArray? ==> (changed <==> out.entries != old(out.entries))
    ensures !s.LoadField? && !s.LoadArray? ==>
      && out.entries == FallBack(s, old(input.entries), old(out.entries))
      && (changed <==> TransferFact(s, old(input.entries)) != old(out.entries))
    ensures forall t :: t in requeued <==> Requeues(env, s, old(input.entries), old(out.entries), t)
  {
    var originalOut := out.entries;
    requeued := [];
    match s {
      case LoadField(_, lhs, access) =>
        if !CanHoldInt(lhs) {
          changed := out.CopyFrom(input);
          return;
        }
        var val;
        if access.StaticFieldAccess? {
          val := MeetMatching(env, StaticStoresTo(access.ref), env.icfg, {}, Undef);
          MeetIsUnique(MatchedValues(env, StaticStoresTo(access.ref), env.icfg), val,
                       MeetOfSet(MatchedValues(env, StaticStoresTo(access.ref), env.icfg)));
        } else {
          val := MeetOverAliases(env, InstanceStoresTo(access.ref), access.base, StoreFieldsOf);
        }
        var _ := out.CopyFrom(input);
        var _ := out.Update(lhs, val);
        changed := out.entries != originalOut;
      case StoreField(_, access, _) =>
        if access.StaticFieldAccess? {
          requeued := RequeueMatching(env, StaticLoadsOf(access.ref), env.icfg, []);
        } else {
          requeued := RequeueOverAliases(env, InstanceLoadsOf(access.ref), access.base, LoadFieldsOf);
        }
        changed := TransferNode(s, input, out);
      case LoadArray(_, lhs, base, i) =>
        var val := MeetOverAliases(env, ArrayStoresTo(out.Get(i), input.Get(i)), base, StoreArraysOf);
        var _ := out.CopyFrom(input);
        var _ := out.Update(lhs, val);
        changed := out.entries != originalOut;
      case StoreArray(_, base, i, _) =>
        requeued := RequeueOverAliases(env, ArrayLoadsOf(out.Get(i), input.Get(i)), base, LoadArraysOf);
        changed := TransferNode(s, input, out);
      case _ =>
        changed := TransferNode(s, input, out);
    }
  }

  /**
   * A loaded value covers every store it may read from: each value written
   * through an alias of the base to the same field lies below what the load reads.
   */
  lemma InstanceLoadCoversAliasedStores(env: Env, s: Stmt, inFact: Fact, outFact: Fact, v: Var, st: Stmt)
    requires s.LoadField? && s.access.InstanceFieldAccess?
    requires v in env.vars && Aliased(env, s.access.base, v) && st in env.storeFields(v)
    requires Matches(env, InstanceStoresTo(s.access.ref), st)
    ensures Below(StoredValue(env, st), LoadedValue(env, s, inFact, outFact))
  {
    AliasedAccessesMembers(env, s.access.base, env.vars, StoreFieldsOf, st);
  }

  /** A load through a base that aliases no variable reads Undef. */
  lemma UnaliasedLoadIsUndef(env: Env, s: Stmt, inFact: Fact, outFact: Fact)
    requires s.LoadField? && s.access.InstanceFieldAccess?
    requires forall v :: v in env.vars ==> !Aliased(env, s.access.base, v)
    ensures LoadedValue(env, s, inFact, outFact) == Undef
  {
    forall st | st in AliasedAccesses(env, s.access.base, env.vars, StoreFieldsOf)
      ensures false
    {
      AliasedAccessesMembers(env, s.access.base, env.vars, StoreFieldsOf, st);
    }
    assert MatchedValues(env, InstanceStoresTo(s.access.ref), AliasedAccesses(env, s.access.base, env.vars, StoreFieldsOf)) == {};
  }
}
