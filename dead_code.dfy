/**
 * Dead-code detection (A3/DeadCodeDetection.java): a traversal of the control
 * flow graph that follows only the branches constant propagation cannot rule
 * out, and that marks assignments to variables that are not live afterwards
 * and whose right-hand side has no side effect.
 */
module DeadCode {
  import opened JavaInt
  import opened Wrappers
  import opened Ir
  import opened ConstProp
  import opened Reach

  type Node = nat

  datatype EdgeKind = IF_TRUE | IF_FALSE | SWITCH_CASE | SWITCH_DEFAULT | FALL_THROUGH | GOTO | RETURN

  /** A control-flow edge; `caseValue` is meaningful on SWITCH_CASE edges only. */
  datatype Edge = Edge(kind: EdgeKind, target: Node, caseValue: Int32)

  /** A control-flow graph: its nodes, the statement at each node, and each node's out-edges. */
  datatype Cfg = Cfg(nodes: set<Node>, stmtAt: map<Node, Stmt>, entry: Node, exit: Node,
                     outEdges: map<Node, seq<Edge>>)

  /**
   * The results of the two analyses dead-code detection consumes: the
   * constant-propagation fact before each node and the variables live after it.
   */
  datatype Results = Results(constantsIn: Node -> Fact, liveOut: Node -> set<Var>)

  function OutEdges(cfg: Cfg, n: Node): seq<Edge>
  {
    if n in cfg.outEdges then cfg.outEdges[n] else []
  }

  /** Every node has a statement, and every edge and switch default leads to a node. */
  ghost predicate WellFormed(cfg: Cfg)
  {
    && cfg.stmtAt.Keys == cfg.nodes
    && cfg.entry in cfg.nodes
    && (forall n, i :: n in cfg.nodes && 0 <= i < |OutEdges(cfg, n)| ==> OutEdges(cfg, n)[i].target in cfg.nodes)
    && (forall n {:trigger cfg.stmtAt[n]} :: n in cfg.stmtAt && cfg.stmtAt[n].Switch? ==> cfg.stmtAt[n].defaultTarget in cfg.nodes)
  }

  /**
   * hasNoSideEffect: allocation, casts, field and array accesses and integer
   * division may all have effects; every other right-hand side has none.
   */
  function HasNoSideEffect(rvalue: Exp): (r: bool)
    ensures r <==> !(rvalue.NewExp? || rvalue.CastExp? || rvalue.FieldExp? || rvalue.ArrayExp?
                     || (rvalue.BinaryExp? && IsDivOrRem(rvalue.op)))
  {
    match rvalue
    case NewExp(_) => false
    case CastExp(_, _) => false
    case FieldExp(_) => false
    case ArrayExp(_, _) => false
    case BinaryExp(op, _, _) => !(op.Arithmetic? && (op.aop == DIV || op.aop == REM))
    case _ => true
  }

  /** An assignment to a variable that is dead afterwards, whose right-hand side has no side effect. */
  ghost predicate UselessAssign(cfg: Cfg, res: Results, n: Node)
  {
    n in cfg.stmtAt && IsAssignStmt(cfg.stmtAt[n]) && HasNoSideEffect(RValue(cfg.stmtAt[n]))
    && DefVar(cfg.stmtAt[n]).Some? && DefVar(cfg.stmtAt[n]).value !in res.liveOut(n)
  }

  /** Which of a node's out-edges the traversal follows. */
  datatype EdgeFilter = AllEdges | KindOnly(kind: EdgeKind) | CaseOnly(value: Int32)

  predicate Keeps(filter: EdgeFilter, e: Edge)
  {
    match filter
    case AllEdges => true
    case KindOnly(k) => e.kind == k
    case CaseOnly(c) => e.kind == SWITCH_CASE && e.caseValue == c
  }

  /** The targets of the edges the filter keeps, in edge order. */
  function Targets(edges: seq<Edge>, filter: EdgeFilter): (r: seq<Node>)
    ensures forall t :: t in r <==> exists i :: 0 <= i < |edges| && Keeps(filter, edges[i]) && edges[i].target == t
  {
    if edges == [] then []
    else
      var rest := Targets(edges[1..], filter);
      assert forall i :: 1 <= i < |edges| ==> edges[i] == edges[1..][i - 1];
      if Keeps(filter, edges[0]) then [edges[0].target] + rest else rest
  }

  /**
   * The successors the traversal enqueues after a node: for a branch whose
   * condition is a constant, only the taken side; for a switch on a constant,
   * the matching cases, or the default target when no case matches.
   */
  function Followed(cfg: Cfg, res: Results, n: Node): seq<Node>
  {
    var edges := OutEdges(cfg, n);
    if n !in cfg.stmtAt then Targets(edges, AllEdges)
    else match cfg.stmtAt[n]
      case If(_, condition) =>
        var c := Evaluate(condition, res.constantsIn(n));
        if c.Const? then Targets(edges, KindOnly(if c.constant == 0 then IF_FALSE else IF_TRUE))
        else Targets(edges, AllEdges)
      case Switch(_, v, caseValues, defaultTarget) =>
        var c := Evaluate(VarExp(v), res.constantsIn(n));
        if c.Const? then
          (if c.constant in caseValues then Targets(edges, CaseOnly(c.constant)) else [defaultTarget])
        else Targets(edges, AllEdges)
      case _ => Targets(edges, AllEdges)
  }

  function Successors(cfg: Cfg, res: Results, n: Node): set<Node>
  {
    set t | t in Followed(cfg, res, n)
  }

  /** The successor relation of the traversal, as a function for Reach. */
  function Succ(cfg: Cfg, res: Results): Node -> set<Node>
  {
    n => Successors(cfg, res, n)
  }

  /**
   * A branch on a constant condition follows only the edges of the matching kind,
   * so the other side is not reached through this node.
   */
  lemma ConstantBranchFollowsOneSide(cfg: Cfg, res: Results, n: Node, t: Node)
    requires n in cfg.stmtAt && cfg.stmtAt[n].If?
    requires Evaluate(cfg.stmtAt[n].condition, res.constantsIn(n)) == Const(0)
    requires t in Succ(cfg, res)(n)
    ensures exists i :: 0 <= i < |OutEdges(cfg, n)| && OutEdges(cfg, n)[i] == Edge(IF_FALSE, t, OutEdges(cfg, n)[i].caseValue)
  {
  }

  /** A switch on a constant that no case lists goes to its default target only. */
  lemma UnmatchedSwitchTakesDefault(cfg: Cfg, res: Results, n: Node)
    requires n in cfg.stmtAt && cfg.stmtAt[n].Switch?
    requires var c := Lookup(res.constantsIn(n), cfg.stmtAt[n].v); c.Const? && c.constant !in cfg.stmtAt[n].caseValues
    ensures Succ(cfg, res)(n) == {cfg.stmtAt[n].defaultTarget}
  {
  }

  /** Appends to the queue the targets of the out-edges the filter keeps. */
  method EnqueueTargets(queue: seq<Node>, edges: seq<Edge>, filter: EdgeFilter) returns (q: seq<Node>)
    ensures q == queue + Targets(edges, filter)
  {
    q := queue;
    var i := |edges|;
    var suffix: seq<Node> := [];
    // Targets is defined from the front, so the suffix is collected from the back.
    while i > 0
      invariant 0 <= i <= |edges|
      invariant suffix == Targets(edges[i..], filter)
    {
      i := i - 1;
      assert edges[i..][1..] == edges[i + 1..];
      if Keeps(filter, edges[i]) {
        suffix := [edges[i].target] + suffix;
      }
    }
    assert edges[0..] == edges;
    q := q + suffix;
  }

  /**
   * One visit of the traversal: whether the node is a useless assignment, and
   * the queue with the successors it follows appended.
   */
  method Visit(cfg: Cfg, res: Results, stmt: Node, queue: seq<Node>) returns (useless: bool, q: seq<Node>)
    requires stmt in cfg.stmtAt
    ensures useless == UselessAssign(cfg, res, stmt)
    ensures q == queue + Followed(cfg, res, stmt)
  {
    var edges := OutEdges(cfg, stmt);
    var s := cfg.stmtAt[stmt];
    useless := false;
    if IsAssignStmt(s) {
      useless := HasNoSideEffect(RValue(s)) && DefVar(s).Some? && DefVar(s).value !in res.liveOut(stmt);
      q := EnqueueTargets(queue, edges, AllEdges);
    } else if s.If? {
      var condition := Evaluate(s.condition, res.constantsIn(stmt));
      if condition.Const? {
        if condition.constant == 0 {
          q := EnqueueTargets(queue, edges, KindOnly(IF_FALSE));
        } else {
          q := EnqueueTargets(queue, edges, KindOnly(IF_TRUE));
        }
      } else {
        q := EnqueueTargets(queue, edges, AllEdges);
      }
    } else if s.Switch? {
      var condition := Evaluate(VarExp(s.v), res.constantsIn(stmt));
      if condition.Const? {
        if condition.constant in s.caseValues {
          q := EnqueueTargets(queue, edges, CaseOnly(condition.constant));
        } else {
          q := queue + [s.defaultTarget];
        }
      } else {
        q := EnqueueTargets(queue, edges, AllEdges);
      }
    } else {
      q := EnqueueTargets(queue, edges, AllEdges);
    }
  }

  /** Everything a well-formed graph's traversal follows is a node of the graph. */
  lemma FollowedAreNodes(cfg: Cfg, res: Results, n: Node)
    requires WellFormed(cfg) && n in cfg.nodes
    ensures forall t :: t in Followed(cfg, res, n) ==> t in cfg.nodes
  {
    var edges := OutEdges(cfg, n);
    forall f: EdgeFilter, t | t in Targets(edges, f)
      ensures t in cfg.nodes
    {
      var i :| 0 <= i < |edges| && Keeps(f, edges[i]) && edges[i].target == t;
    }
  }

  /** Classifying a new node as dead or live keeps the two sets disjoint and correct. */
  lemma ClassifyKeepsInv(cfg: Cfg, res: Results, deadCode: set<Node>, liveCode: set<Node>, x: Node,
                         deadCode': set<Node>, liveCode': set<Node>)
    requires deadCode !! liveCode && x !in deadCode + liveCode
    requires forall n :: n in deadCode ==> UselessAssign(cfg, res, n)
    requires forall n :: n in liveCode ==> !UselessAssign(cfg, res, n)
    requires if UselessAssign(cfg, res, x) then deadCode' == deadCode + {x} && liveCode' == liveCode
             else deadCode' == deadCode && liveCode' == liveCode + {x}
    ensures deadCode' !! liveCode' && deadCode' + liveCode' == deadCode + liveCode + {x}
    ensures forall n :: n in deadCode' ==> UselessAssign(cfg, res, n)
    ensures forall n :: n in liveCode' ==> !UselessAssign(cfg, res, n)
  {
  }

  /** Visiting the queue head and queueing what it follows keeps the traversal invariant. */
  lemma VisitKeepsTraversalInv(cfg: Cfg, res: Results, visited: set<Node>, queue: seq<Node>,
                               next: seq<Node>, visited': set<Node>, queue': seq<Node>)
    requires WellFormed(cfg) && TraversalInv(Succ(cfg, res), cfg.entry, cfg.nodes, visited, queue)
    requires queue != [] && queue[0] !in visited
    requires next == Followed(cfg, res, queue[0]) && queue' == queue[1..] + next
    requires visited' == visited + {queue[0]}
    ensures TraversalInv(Succ(cfg, res), cfg.entry, cfg.nodes, visited', queue')
    ensures |cfg.nodes - visited'| < |cfg.nodes - visited|
  {
    FollowedAreNodes(cfg, res, queue[0]);
    TraversalVisit(Succ(cfg, res), cfg.entry, cfg.nodes, visited, queue, next, visited', queue');
  }

  /** One round of the traversal on a queue head that was not visited before. */
  method VisitHead(cfg: Cfg, res: Results, deadCode: set<Node>, liveCode: set<Node>, queue: seq<Node>)
    returns (deadCode': set<Node>, liveCode': set<Node>, queue': seq<Node>)
    requires WellFormed(cfg) && TraversalInv(Succ(cfg, res), cfg.entry, cfg.nodes, deadCode + liveCode, queue)
    requires deadCode !! liveCode
    requires forall n :: n in deadCode ==> UselessAssign(cfg, res, n)
    requires forall n :: n in liveCode ==> !UselessAssign(cfg, res, n)
    requires queue != [] && queue[0] !in deadCode + liveCode
    ensures TraversalInv(Succ(cfg, res), cfg.entry, cfg.nodes, deadCode' + liveCode', queue')
    ensures deadCode' !! liveCode'
    ensures forall n :: n in deadCode' ==> UselessAssign(cfg, res, n)
    ensures forall n :: n in liveCode' ==> !UselessAssign(cfg, res, n)
    ensures |cfg.nodes - (deadCode' + liveCode')| < |cfg.nodes - (deadCode + liveCode)|
  {
    var stmt := queue[0];
    var useless, next := Visit(cfg, res, stmt, []);
    queue' := queue[1..] + next;
    deadCode' := if useless then deadCode + {stmt} else deadCode;
    liveCode' := if useless then liveCode else liveCode + {stmt};
    ClassifyKeepsInv(cfg, res, deadCode, liveCode, stmt, deadCode', liveCode');
    VisitKeepsTraversalInv(cfg, res, deadCode + liveCode, queue, next, deadCode' + liveCode', queue');
  }

  /**
   * The traversal of DeadCodeDetection.analyze: from the entry, visit each
   * node once, recording it as dead (a useless assignment) or live, and queue
   * the successors it follows.
   */
  method Traverse(cfg: Cfg, res: Results) returns (deadCode: set<Node>, liveCode: set<Node>)
    requires WellFormed(cfg)
    ensures deadCode !! liveCode
    ensures forall n :: n in deadCode + liveCode <==> Reachable(Succ(cfg, res), cfg.entry, n)
    ensures forall n :: n in deadCode ==> UselessAssign(cfg, res, n)
    ensures forall n :: n in liveCode ==> !UselessAssign(cfg, res, n)
  {
    deadCode, liveCode := {}, {};
    var queue: seq<Node> := [cfg.entry];
    TraversalStart(Succ(cfg, res), cfg.entry, cfg.nodes);
    while queue != []
      invariant TraversalInv(Succ(cfg, res), cfg.entry, cfg.nodes, deadCode + liveCode, queue)
      invariant deadCode !! liveCode
      invariant forall n :: n in deadCode ==> UselessAssign(cfg, res, n)
      invariant forall n :: n in liveCode ==> !UselessAssign(cfg, res, n)
      decreases |cfg.nodes - (deadCode + liveCode)|, |queue|
    {
      if queue[0] in deadCode || queue[0] in liveCode {
        TraversalSkip(Succ(cfg, res), cfg.entry, cfg.nodes, deadCode + liveCode, queue);
        queue := queue[1..];
      } else {
        deadCode, liveCode, queue := VisitHead(cfg, res, deadCode, liveCode, queue);
      }
    }
    TraversalDone(Succ(cfg, res), cfg.entry, cfg.nodes, deadCode + liveCode);
  }

  /**
   * DeadCodeDetection.analyze: the dead statements are the nodes other than
   * entry and exit that the traversal does not reach, together with the
   * useless assignments it does reach.
   */
  method Analyze(cfg: Cfg, res: Results) returns (dead: set<Node>)
    requires WellFormed(cfg)
    ensures forall n :: n in dead <==>
      n in cfg.nodes && n != cfg.entry && n != cfg.exit
      && (!Reachable(Succ(cfg, res), cfg.entry, n) || UselessAssign(cfg, res, n))
  {
    var deadCode, liveCode := Traverse(cfg, res);
    dead := deadCode + cfg.nodes;
    dead := dead - liveCode;
    dead := dead - {cfg.entry};
    dead := dead - {cfg.exit};
  }
}
