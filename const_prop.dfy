/**
 * Intraprocedural constant propagation for int-holding variables
 * (A2/ConstantPropagation.java): the flat lattice of values, the meet, the
 * abstract evaluation of expressions and the node transfer.
 *
 * A fact (CPFact) maps variables to values; a variable that is absent reads as
 * Undef, and updating a variable to Undef removes it, so a fact never stores
 * Undef. Copying one fact into another overwrites the keys of the source and
 * keeps the others; two facts are equal when their maps are.
 */
module ConstProp {
  import opened JavaInt
  import opened Wrappers
  import opened Ir

  datatype Value = Undef | Const(constant: Int32) | NAC

  /** The lattice order: Undef lies below every constant, every constant below NAC. */
  predicate Below(v1: Value, v2: Value)
  {
    v1 == v2 || v1.Undef? || v2.NAC?
  }

  /** The meet of two values is their least upper bound in the order Below. */
  function MeetValue(v1: Value, v2: Value): (r: Value)
    ensures Below(v1, r) && Below(v2, r)
    ensures forall u :: Below(v1, u) && Below(v2, u) ==> Below(r, u)
  {
    if v1.NAC? || v2.NAC? then NAC
    else if v1.Undef? then v2
    else if v2.Undef? then v1
    else if v1.constant == v2.constant then v1
    else NAC
  }

  lemma MeetIsCommutativeAndIdempotent(a: Value, b: Value)
    ensures MeetValue(a, b) == MeetValue(b, a)
    ensures MeetValue(a, a) == a
    ensures MeetValue(a, Undef) == a && MeetValue(a, NAC) == NAC
  {
  }

  lemma MeetIsAssociative(a: Value, b: Value, c: Value)
    ensures MeetValue(MeetValue(a, b), c) == MeetValue(a, MeetValue(b, c))
  {
  }

  /** Two constants meet to that constant when they agree and to NAC when they differ. */
  lemma MeetOfConstants(m: Int32, n: Int32)
    ensures MeetValue(Const(m), Const(n)) == if m == n then Const(m) else NAC
  {
  }

  type Fact = map<Var, Value>

  /** A fact never stores Undef: absence stands for it. */
  ghost predicate Normal(f: Fact)
  {
    forall v :: v in f ==> f[v] != Undef
  }

  function Lookup(f: Fact, v: Var): Value
  {
    if v in f then f[v] else Undef
  }

  function Updated(f: Fact, v: Var, val: Value): (r: Fact)
    ensures Normal(f) ==> Normal(r)
    ensures Lookup(r, v) == val
    ensures forall w :: w != v ==> Lookup(r, w) == Lookup(f, w)
  {
    if val.Undef? then f - {v} else f[v := val]
  }

  /** Normal facts are equal exactly when they read the same value for every variable. */
  lemma FactExtensionality(f: Fact, g: Fact)
    requires Normal(f) && Normal(g)
    requires forall v :: Lookup(f, v) == Lookup(g, v)
    ensures f == g
  {
    forall v | v in f
      ensures v in g && f[v] == g[v]
    {
      assert Lookup(f, v) == Lookup(g, v);
    }
    forall v | v in g
      ensures v in f
    {
      assert Lookup(f, v) == Lookup(g, v);
    }
  }

  /** The pointwise lattice order on facts. */
  ghost predicate FactBelow(f: Fact, g: Fact)
  {
    forall v :: Below(Lookup(f, v), Lookup(g, v))
  }

  /** The Java int semantics of a binary operator on two constants. */
  function EvaluateBinary(op: BinaryOp, c1: Int32, c2: Int32): Value
  {
    match op
    case Arithmetic(aop) =>
      (match aop
       case ADD => Const(Add(c1, c2))
       case SUB => Const(Sub(c1, c2))
       case MUL => Const(Mul(c1, c2))
       case DIV => if c2 == 0 then Undef else Const(Div(c1, c2))
       case REM => if c2 == 0 then Undef else Const(Rem(c1, c2)))
    case Condition(cop) =>
      var holds := match cop
        case EQ => c1 == c2
        case NE => c1 != c2
        case LT => c1 < c2
        case GT => c1 > c2
        case LE => c1 <= c2
        case GE => c1 >= c2;
      Const(if holds then 1 else 0)
    case Bitwise(bop) =>
      (match bop
       case OR => Const(Or(c1, c2))
       case AND => Const(And(c1, c2))
       case XOR => Const(Xor(c1, c2)))
    case Shift(sop) =>
      (match sop
       case SHL => Const(Shl(c1, c2))
       case SHR => Const(Shr(c1, c2))
       case USHR => Const(Ushr(c1, c2)))
    case Comparison(_) => NAC
  }

  predicate IsDivOrRem(op: BinaryOp)
  {
    op == Arithmetic(DIV) || op == Arithmetic(REM)
  }

  /** The abstract value of an expression in the fact `input`. */
  function Evaluate(exp: Exp, input: Fact): Value
  {
    match exp
    case IntLiteral(n) => Const(n)
    case VarExp(v) => Lookup(input, v)
    case BinaryExp(op, x, y) =>
      var v1, v2 := Lookup(input, x), Lookup(input, y);
      if v1.Const? && v2.Const? then EvaluateBinary(op, v1.constant, v2.constant)
      else if v1.NAC? || v2.NAC? then
        (if IsDivOrRem(op) && v2 == Const(0) then Undef else NAC)
      else Undef
    case _ => NAC
  }

  /** A division or remainder by a divisor known to be 0 is Undef, whatever the dividend. */
  lemma DivisionByZeroIsUndef(op: BinaryOp, x: Var, y: Var, input: Fact)
    requires IsDivOrRem(op) && Lookup(input, y) == Const(0)
    ensures Evaluate(BinaryExp(op, x, y), input) == Undef
  {
  }

  /** A comparison of two constants yields 1 or 0. */
  lemma ComparisonIsZeroOrOne(cop: ConditionOp, x: Var, y: Var, input: Fact)
    requires Lookup(input, x).Const? && Lookup(input, y).Const?
    ensures Evaluate(BinaryExp(Condition(cop), x, y), input) in {Const(0), Const(1)}
  {
  }

  /**
   * A comparison is never a constant. Its operands are long, float or double variables, which
   * the facts never hold, so in practice it is Undef.
   */
  lemma ComparisonIsNeverConstant(cmp: ComparisonOp, x: Var, y: Var, input: Fact)
    ensures Evaluate(BinaryExp(Comparison(cmp), x, y), input) in {Undef, NAC}
    ensures !CanHoldInt(x) && !CanHoldInt(y) && (forall v :: v in input ==> CanHoldInt(v)) ==>
              Evaluate(BinaryExp(Comparison(cmp), x, y), input) == Undef
  {
  }

  /**
   * Raising a division's or remainder's divisor from Undef to the constant 0:
   * the one way to raise an expression's operands that can lower its value.
   */
  ghost predicate DivisorRaisedToZero(exp: Exp, f: Fact, g: Fact)
  {
    exp.BinaryExp? && IsDivOrRem(exp.op)
    && Lookup(f, exp.operand2) == Undef && Lookup(g, exp.operand2) == Const(0)
  }

  /**
   * Evaluation is monotone: raising the operands in the lattice never lowers
   * the result, except when a division's divisor is raised from Undef to 0.
   */
  lemma {:induction false} EvaluateIsMonotone(exp: Exp, f: Fact, g: Fact)
    requires FactBelow(f, g) && !DivisorRaisedToZero(exp, f, g)
    ensures Below(Evaluate(exp, f), Evaluate(exp, g))
  {
    if exp.BinaryExp? {
      var x, y := exp.operand1, exp.operand2;
      assert Below(Lookup(f, x), Lookup(g, x)) && Below(Lookup(f, y), Lookup(g, y));
    } else if exp.VarExp? {
      assert Below(Lookup(f, exp.v), Lookup(g, exp.v));
    }
  }

  /**
   * The exception is real: with a NAC dividend, `x / y` is NAC while y is Undef
   * and becomes Undef once y is known to be 0.
   */
  lemma DivisionIsNotMonotone(x: Var, y: Var)
    requires x != y
    ensures var f, g := map[x := NAC], map[x := NAC, y := Const(0)];
      FactBelow(f, g)
      && Evaluate(BinaryExp(Arithmetic(DIV), x, y), f) == NAC
      && Evaluate(BinaryExp(Arithmetic(DIV), x, y), g) == Undef
  {
  }

  /** ConstantPropagation.canHoldInt: byte, short, int, char and boolean variables. */
  function CanHoldInt(v: Var): (r: bool)
    ensures r <==> v.ty in {Primitive(BYTE), Primitive(SHORT), Primitive(INT), Primitive(CHAR), Primitive(BOOLEAN)}
  {
    match v.ty
    case Primitive(p) => p.BYTE? || p.SHORT? || p.INT? || p.CHAR? || p.BOOLEAN?
    case Reference(_) => false
  }

  /** The fact a node's transfer produces from the input fact: the int-holding variable it defines gets the value of its right-hand side. */
  function TransferFact(s: Stmt, input: Fact): (r: Fact)
    ensures Normal(input) ==> Normal(r)
  {
    match DefVar(s)
    case Some(v) => if CanHoldInt(v) then Updated(input, v, Evaluate(RValue(s), input)) else input
    case None => input
  }

  /** The transfer keeps every variable but the one defined, and sets that one to its evaluated right-hand side. */
  lemma TransferFactReads(s: Stmt, input: Fact, w: Var)
    ensures Lookup(TransferFact(s, input), w) ==
      if DefVar(s) == Some(w) && CanHoldInt(w) then Evaluate(RValue(s), input) else Lookup(input, w)
  {
  }

  /** The node transfer is monotone in its input fact, with the exception Evaluate has. */
  lemma TransferIsMonotone(s: Stmt, f: Fact, g: Fact)
    requires FactBelow(f, g)
    requires DefVar(s).Some? ==> !DivisorRaisedToZero(RValue(s), f, g)
    ensures FactBelow(TransferFact(s, f), TransferFact(s, g))
  {
    forall w
      ensures Below(Lookup(TransferFact(s, f), w), Lookup(TransferFact(s, g), w))
    {
      TransferFactReads(s, f, w);
      TransferFactReads(s, g, w);
      if DefVar(s) == Some(w) && CanHoldInt(w) {
        EvaluateIsMonotone(RValue(s), f, g);
      } else {
        assert Below(Lookup(f, w), Lookup(g, w));
      }
    }
  }

  /** newInitialFact: the empty fact, every variable Undef. */
  function NewInitialFact(): (r: Fact)
    ensures Normal(r)
    ensures forall v :: Lookup(r, v) == Undef
  {
    map[]
  }

  /** newBoundaryFact: the parameters that can hold an int are NAC, everything else Undef. */
  method NewBoundaryFact(params: seq<Var>) returns (f: Fact)
    ensures Normal(f)
    ensures forall v :: Lookup(f, v) == if v in params && CanHoldInt(v) then NAC else Undef
  {
    f := map[];
    var i := 0;
    while i < |params|
      invariant 0 <= i <= |params|
      invariant Normal(f)
      invariant forall v :: Lookup(f, v) == if v in params[..i] && CanHoldInt(v) then NAC else Undef
    {
      var p := params[i];
      if CanHoldInt(p) {
        f := Updated(f, p, NAC);
      }
      assert params[..i + 1] == params[..i] + [p];
      i := i + 1;
    }
    assert params[..i] == params;
  }

  /** A mutable fact, updated in place by the transfer and meet operations. */
  class CPFact {
    var entries: Fact

    ghost predicate Valid()
      reads this
    {
      Normal(entries)
    }

    constructor (init: Fact)
      requires Normal(init)
      ensures Valid() && entries == init
    {
      entries := init;
    }

    function Get(v: Var): Value
      reads this
    {
      Lookup(entries, v)
    }

    method Update(v: Var, val: Value) returns (changed: bool)
      requires Valid()
      modifies this
      ensures Valid()
      ensures entries == Updated(old(entries), v, val)
      ensures changed <==> entries != old(entries)
    {
      var before := entries;
      entries := Updated(entries, v, val);
      changed := entries != before;
    }

    /** Overwrites the keys of `src` with its values, keeping the other keys. */
    method CopyFrom(src: CPFact) returns (changed: bool)
      requires Valid() && src.Valid()
      modifies this
      ensures Valid()
      ensures entries == old(entries) + old(src.entries)
      ensures changed <==> entries != old(entries)
    {
      var before := entries;
      entries := entries + src.entries;
      changed := entries != before;
    }
  }

  /**
   * meetInto: every key of `fact` gets, in `target`, the meet of the two facts'
   * values; keys present only in `target` keep their values.
   */
  method MeetInto(fact: CPFact, target: CPFact)
    requires fact.Valid() && target.Valid()
    modifies target
    ensures target.Valid()
    ensures forall v :: target.Get(v) == (
                          if v in old(fact.entries) then MeetValue(old(fact.Get(v)), old(target.Get(v))) else old(target.Get(v)))
  {
    var src := fact.entries;
    var keys := src.Keys;
    while keys != {}
      invariant keys <= src.Keys
      invariant target.Valid()
      invariant forall v :: target.Get(v) == (
                            if v in src.Keys - keys then MeetValue(Lookup(src, v), old(target.Get(v))) else old(target.Get(v)))
      decreases keys
    {
      var k :| k in keys;
      var newVal := MeetValue(src[k], target.Get(k));
      var _ := target.Update(k, newVal);
      keys := keys - {k};
    }
  }

  /**
   * transferNode: the transferred fact is compared with `out`; when they differ
   * it is copied into `out` and the result is true.
   */
  method TransferNode(s: Stmt, input: CPFact, out: CPFact) returns (changed: bool)
    requires input.Valid() && out.Valid()
    modifies out
    ensures out.Valid()
    ensures changed <==> TransferFact(s, old(input.entries)) != old(out.entries)
    ensures out.entries == if changed then old(out.entries) + TransferFact(s, old(input.entries)) else old(out.entries)
  {
    var ret := new CPFact(TransferFact(s, input.entries));
    if ret.entries == out.entries {
      changed := false;
    } else {
      var _ := out.CopyFrom(ret);
      changed := true;
    }
  }

  /**
   * After a transfer that reports a change, OUT is its old entries overwritten
   * by the transferred fact t. A second transfer of the same statement and IN
   * compares t with that OUT, so it reports no change exactly when the old OUT
   * had no variable outside t: copyFrom never removes a variable t leaves
   * undefined.
   */
  lemma RepeatedTransferIsStable(outBefore: Fact, t: Fact)
    ensures t == outBefore + t <==> outBefore.Keys <= t.Keys
  {
    if outBefore.Keys <= t.Keys {
      assert (outBefore + t).Keys == t.Keys;
    }
  }
}
