/** The usual optional value, standing for a Java reference that may be null. */
module Wrappers {
  datatype Option<+T> = None | Some(value: T)
}

/**
 * The slice of Tai-e's three-address intermediate representation that the
 * dataflow analyses (constant propagation, dead-code detection and the
 * interprocedural constant propagation) look at.
 */
module Ir {
  import opened JavaInt
  import opened Wrappers

  datatype PrimitiveType = BYTE | SHORT | INT | CHAR | BOOLEAN | LONG | FLOAT | DOUBLE

  datatype Type = Primitive(prim: PrimitiveType) | Reference(className: nat)

  /** A local variable of a method's IR, with its declared type. */
  datatype Var = Var(name: nat, ty: Type)

  type ClassName = nat

  /** A resolved field (JField). */
  type Field = nat

  /** A field reference: the class it names and the field it resolves to. */
  datatype FieldRef = FieldRef(declaringClass: ClassName, field: Field)

  datatype ArithmeticOp = ADD | SUB | MUL | DIV | REM
  datatype ConditionOp = EQ | NE | LT | GT | LE | GE
  datatype BitwiseOp = OR | AND | XOR
  datatype ShiftOp = SHL | SHR | USHR
  /** The long, float and double comparisons, whose operands never hold an int. */
  datatype ComparisonOp = CMP | CMPL | CMPG

  datatype BinaryOp =
    | Arithmetic(aop: ArithmeticOp)
    | Condition(cop: ConditionOp)
    | Bitwise(bop: BitwiseOp)
    | Shift(sop: ShiftOp)
    | Comparison(cmpop: ComparisonOp)

  datatype FieldAccess =
    | InstanceFieldAccess(base: Var, ref: FieldRef)
    | StaticFieldAccess(ref: FieldRef)

  /** Right-hand-side expressions. Binary expressions have variable operands, as in three-address code. */
  datatype Exp =
    | IntLiteral(value: Int32)
    | VarExp(v: Var)
    | BinaryExp(op: BinaryOp, operand1: Var, operand2: Var)
    | NewExp(ty: Type)
    | CastExp(castee: Var, ty: Type)
    | FieldExp(access: FieldAccess)
    | ArrayExp(base: Var, arrayIndex: Var)
    | InvokeExp(args: seq<Var>)
    | OtherExp

  /**
   * Statements; `index` is the statement's position in its method.
   * Assign stands for the AssignStmt kinds whose left-hand side is a variable and
   * whose right-hand side is not a field or array access (new, copy, literal,
   * binary, unary, cast, instanceof); field and array accesses have their own kinds.
   * Nop stands for every statement that defines nothing and does not branch on a value.
   */
  datatype Stmt =
    | Assign(index: nat, lhs: Var, rhs: Exp)
    | LoadField(index: nat, lhs: Var, access: FieldAccess)
    | StoreField(index: nat, access: FieldAccess, stored: Var)
    | LoadArray(index: nat, lhs: Var, base: Var, arrayIndex: Var)
    | StoreArray(index: nat, base: Var, arrayIndex: Var, stored: Var)
    | Invoke(index: nat, result: Option<Var>, args: seq<Var>)
    | If(index: nat, condition: Exp)
    | Switch(index: nat, v: Var, caseValues: seq<Int32>, defaultTarget: nat)
    | Nop(index: nat)

  /** Statements that are AssignStmts in Tai-e. */
  predicate IsAssignStmt(s: Stmt)
  {
    s.Assign? || s.LoadField? || s.StoreField? || s.LoadArray? || s.StoreArray?
  }

  /** Statements that are DefinitionStmts in Tai-e: the assignments and the invocations. */
  predicate IsDefinitionStmt(s: Stmt)
  {
    IsAssignStmt(s) || s.Invoke?
  }

  /** The variable a definition statement defines, if its left-hand side is a variable. */
  function DefVar(s: Stmt): (r: Option<Var>)
    ensures r.Some? ==> IsDefinitionStmt(s)
  {
    match s
    case Assign(_, lhs, _) => Some(lhs)
    case LoadField(_, lhs, _) => Some(lhs)
    case LoadArray(_, lhs, _, _) => Some(lhs)
    case Invoke(_, result, _) => result
    case _ => None
  }

  /** The right-hand side of a definition statement. */
  function RValue(s: Stmt): Exp
    requires IsDefinitionStmt(s)
  {
    match s
    case Assign(_, _, rhs) => rhs
    case LoadField(_, _, access) => FieldExp(access)
    case StoreField(_, _, rhs) => VarExp(rhs)
    case LoadArray(_, _, base, i) => ArrayExp(base, i)
    case StoreArray(_, _, _, rhs) => VarExp(rhs)
    case Invoke(_, _, args) => InvokeExp(args)
  }
}
