/**
 * Class-hierarchy analysis (A4/CHABuilder.java): a call graph built from the
 * entry method, resolving each call site against the class hierarchy alone.
 */
module Cha {
  import opened Wrappers
  import opened Reach

  type ClassName = nat
  type Subsignature = nat

  /** A method, identified by its declaring class and subsignature. */
  datatype JMethod = JMethod(declaringClass: ClassName, subsig: Subsignature, isAbstract: bool)

  /**
   * The class hierarchy. An absent superclass entry is a null superclass; the
   * direct implementors, subclasses and subinterfaces of a class are listed in
   * the order the hierarchy reports them. `level` places every type strictly
   * below its direct subtypes and strictly above its superclass: Java's type
   * hierarchy is acyclic, and the levels are the witness of that.
   */
  datatype Hierarchy = Hierarchy(
    classes: set<ClassName>,
    superClass: map<ClassName, ClassName>,
    declared: map<(ClassName, Subsignature), JMethod>,
    implementors: map<ClassName, seq<ClassName>>,
    subclasses: map<ClassName, seq<ClassName>>,
    subinterfaces: map<ClassName, seq<ClassName>>,
    level: map<ClassName, nat>,
    bound: nat)

  function Level(h: Hierarchy, c: ClassName): nat
  {
    if c in h.level then h.level[c] else 0
  }

  function Listed(m: map<ClassName, seq<ClassName>>, c: ClassName): seq<ClassName>
  {
    if c in m then m[c] else []
  }

  /** The types the CHA traversal queues after c: its direct implementors, subclasses and subinterfaces. */
  function DirectSubtypes(h: Hierarchy, c: ClassName): seq<ClassName>
  {
    Listed(h.implementors, c) + Listed(h.subclasses, c) + Listed(h.subinterfaces, c)
  }

  /** JClass.getDeclaredMethod: the method c itself declares with this subsignature, if any. */
  function DeclaredMethod(h: Hierarchy, c: ClassName, s: Subsignature): (r: Option<JMethod>)
    ensures r.Some? <==> (c, s) in h.declared
  {
    if (c, s) in h.declared then Some(h.declared[(c, s)]) else None
  }

  ghost predicate WellFormed(h: Hierarchy)
  {
    && (forall c :: c in h.level ==> h.level[c] <= h.bound)
    && (forall c :: c in h.superClass ==> h.superClass[c] in h.classes && Level(h, h.superClass[c]) < Level(h, c))
    && (forall c, i :: 0 <= i < |DirectSubtypes(h, c)| ==>
          DirectSubtypes(h, c)[i] in h.classes && Level(h, c) < Level(h, DirectSubtypes(h, c)[i]))
    && (forall k :: k in h.declared ==> h.declared[k].declaringClass == k.0 && h.declared[k].subsig == k.1)
  }

  /** a is c or one of its superclasses. */
  ghost predicate IsSuperOrSelf(h: Hierarchy, a: ClassName, c: ClassName)
    requires WellFormed(h)
    decreases Level(h, c)
  {
    a == c || (c in h.superClass && IsSuperOrSelf(h, a, h.superClass[c]))
  }

  /**
   * dispatch: the first non-abstract method with the subsignature found
   * walking up from c along the superclass chain, or None (null) when there is none.
   */
  function Dispatch(h: Hierarchy, c: ClassName, s: Subsignature): Option<JMethod>
    requires WellFormed(h)
    decreases Level(h, c)
  {
    var m := DeclaredMethod(h, c, s);
    if m.Some? && !m.value.isAbstract then m
    else if c !in h.superClass then None
    else Dispatch(h, h.superClass[c], s)
  }

  /** A dispatched method is a concrete declaration of the subsignature in c or a superclass of c. */
  lemma {:induction false} DispatchIsConcreteDeclaration(h: Hierarchy, c: ClassName, s: Subsignature)
    requires WellFormed(h)
    ensures var r := Dispatch(h, c, s);
      r.Some? ==> && !r.value.isAbstract && r.value.subsig == s
                  && DeclaredMethod(h, r.value.declaringClass, s) == r
                  && IsSuperOrSelf(h, r.value.declaringClass, c)
    decreases Level(h, c)
  {
    var m := DeclaredMethod(h, c, s);
    if !(m.Some? && !m.value.isAbstract) && c in h.superClass {
      DispatchIsConcreteDeclaration(h, h.superClass[c], s);
    }
  }

  /** Dispatch fails only when no class on the superclass chain declares the subsignature concretely. */
  lemma {:induction false} DispatchNoneMeansNoConcrete(h: Hierarchy, c: ClassName, s: Subsignature, a: ClassName)
    requires WellFormed(h)
    requires Dispatch(h, c, s).None? && IsSuperOrSelf(h, a, c)
    ensures DeclaredMethod(h, a, s).None? || DeclaredMethod(h, a, s).value.isAbstract
    decreases Level(h, c)
  {
    if a != c {
      DispatchNoneMeansNoConcrete(h, h.superClass[c], s, a);
    }
  }

  /**
   * The target of a static call: the declaration of the subsignature in the
   * class the call names or, when that class inherits it, in the nearest
   * superclass that declares it.
   */
  function StaticTarget(h: Hierarchy, c: ClassName, s: Subsignature): Option<JMethod>
    requires WellFormed(h)
    decreases Level(h, c)
  {
    var m := DeclaredMethod(h, c, s);
    if m.Some? then m
    else if c !in h.superClass then None
    else StaticTarget(h, h.superClass[c], s)
  }

  /** The static target is a declaration of the subsignature in c or one of its superclasses. */
  lemma {:induction false} StaticTargetIsDeclaration(h: Hierarchy, c: ClassName, s: Subsignature)
    requires WellFormed(h)
    ensures var r := StaticTarget(h, c, s);
      r.Some? ==> r.value.subsig == s && DeclaredMethod(h, r.value.declaringClass, s) == r
                  && IsSuperOrSelf(h, r.value.declaringClass, c)
    ensures StaticTarget(h, c, s).None? <==> (forall a :: IsSuperOrSelf(h, a, c) ==> DeclaredMethod(h, a, s).None?)
    decreases Level(h, c)
  {
    if DeclaredMethod(h, c, s).None? && c in h.superClass {
      StaticTargetIsDeclaration(h, h.superClass[c], s);
    }
  }

  /** resolve as written for a static call: only the class the call names is searched. */
  function StaticTargetAsWritten(h: Hierarchy, c: ClassName, s: Subsignature): Option<JMethod>
  {
    DeclaredMethod(h, c, s)
  }

  /**
   * A call `B.m()` to a static method m that B inherits from its superclass A
   * names B; looking only at B's own declarations finds nothing, so the
   * resolved set holds null, while the method that runs is A.m.
   */
  lemma InheritedStaticCallResolvesToNull()
    ensures var h := Hierarchy({0, 1}, map[1 := 0], map[(0, 7) := JMethod(0, 7, false)],
                               map[], map[0 := [1]], map[], map[0 := 0, 1 := 1], 1);
      && WellFormed(h)
      && StaticTargetAsWritten(h, 1, 7) == None
      && StaticTarget(h, 1, 7) == Some(JMethod(0, 7, false))
  {
    var h := Hierarchy({0, 1}, map[1 := 0], map[(0, 7) := JMethod(0, 7, false)],
                       map[], map[0 := [1]], map[], map[0 := 0, 1 := 1], 1);
    assert DirectSubtypes(h, 0) == [1];
    assert forall c :: c != 0 ==> DirectSubtypes(h, c) == [];
  }

  function SubtypeSet(h: Hierarchy, c: ClassName): set<ClassName>
  {
    set x | x in DirectSubtypes(h, c)
  }

  /** The direct-subtype relation, as a successor function. */
  function Subtypes(h: Hierarchy): ClassName -> set<ClassName>
  {
    c => SubtypeSet(h, c)
  }

  /** The concrete methods dispatched from the classes of P. */
  ghost function DispatchedOver(h: Hierarchy, p: set<ClassName>, s: Subsignature): set<JMethod>
    requires WellFormed(h)
  {
    set c | c in p && Dispatch(h, c, s).Some? :: Dispatch(h, c, s).value
  }

  /**
   * The targets of a virtual or interface call: what dispatch finds from the
   * declaring class of the called method and from each of its transitive subtypes.
   */
  ghost function VirtualTargets(h: Hierarchy, root: ClassName, s: Subsignature): set<JMethod>
    requires WellFormed(h)
  {
    DispatchedOver(h, (set c | c in h.classes + {root} && Reachable(Subtypes(h), root, c)), s)
  }

  /** The number of paths down the subtype relation from c, c itself included: the BFS measure. */
  ghost function Weight(h: Hierarchy, c: ClassName): nat
    requires WellFormed(h)
    decreases h.bound - Level(h, c), 1, 0
  {
    1 + WeightSeq(h, DirectSubtypes(h, c), Level(h, c))
  }

  ghost function WeightSeq(h: Hierarchy, q: seq<ClassName>, above: int): nat
    requires WellFormed(h) && -1 <= above <= h.bound
    requires forall i :: 0 <= i < |q| ==> Level(h, q[i]) > above
    decreases h.bound - above, 0, |q|
  {
    if q == [] then 0 else Weight(h, q[0]) + WeightSeq(h, q[1..], above)
  }

  lemma {:induction false} WeightSeqAppend(h: Hierarchy, a: seq<ClassName>, b: seq<ClassName>)
    requires WellFormed(h)
    ensures WeightSeq(h, a + b, -1) == WeightSeq(h, a, -1) + WeightSeq(h, b, -1)
    decreases |a|
  {
    if a != [] {
      assert (a + b)[1..] == a[1..] + b;
      WeightSeqAppend(h, a[1..], b);
    } else {
      assert a + b == b;
    }
  }

  /** The bound argument of WeightSeq only serves termination. */
  lemma {:induction false} WeightSeqAnyBound(h: Hierarchy, q: seq<ClassName>, above: int)
    requires WellFormed(h) && -1 <= above <= h.bound
    requires forall i :: 0 <= i < |q| ==> Level(h, q[i]) > above
    ensures WeightSeq(h, q, above) == WeightSeq(h, q, -1)
    decreases |q|
  {
    if q != [] {
      WeightSeqAnyBound(h, q[1..], above);
    }
  }

  /** Replacing the head of the queue by its direct subtypes lowers the weight by one. */
  lemma QueueWeightDrops(h: Hierarchy, queue: seq<ClassName>)
    requires WellFormed(h) && queue != []
    ensures WeightSeq(h, queue[1..] + DirectSubtypes(h, queue[0]), -1) < WeightSeq(h, queue, -1)
  {
    var c := queue[0];
    WeightSeqAppend(h, queue[1..], DirectSubtypes(h, c));
    WeightSeqAnyBound(h, DirectSubtypes(h, c), Level(h, c));
  }

  lemma DispatchedOverAdd(h: Hierarchy, p: set<ClassName>, c: ClassName, s: Subsignature)
    requires WellFormed(h)
    ensures DispatchedOver(h, p + {c}, s) ==
      DispatchedOver(h, p, s) + (if Dispatch(h, c, s).Some? then {Dispatch(h, c, s).value} else {})
  {
  }

  /** One round of the subtype traversal of resolve. */
  lemma VirtualStep(h: Hierarchy, root: ClassName, processed: set<ClassName>, queue: seq<ClassName>)
    requires WellFormed(h) && queue != []
    requires TraversalInv(Subtypes(h), root, h.classes + {root}, processed, queue)
    ensures TraversalInv(Subtypes(h), root, h.classes + {root}, processed + {queue[0]},
                         queue[1..] + DirectSubtypes(h, queue[0]))
  {
    var next := DirectSubtypes(h, queue[0]);
    if queue[0] in processed {
      assert processed + {queue[0]} == processed;
      TraversalRevisit(Subtypes(h), root, h.classes + {root}, processed, queue, next, queue[1..] + next);
    } else {
      TraversalVisit(Subtypes(h), root, h.classes + {root}, processed, queue, next,
                     processed + {queue[0]}, queue[1..] + next);
    }
  }

  /**
   * The virtual and interface case of resolve: a breadth-first walk of the
   * subtypes of the declaring class, with no visited set, collecting what
   * dispatch finds from every type taken off the queue.
   */
  method ResolveVirtual(h: Hierarchy, root: ClassName, s: Subsignature) returns (targets: set<JMethod>)
    requires WellFormed(h)
    ensures targets == VirtualTargets(h, root, s)
  {
    targets := {};
    var queue := [root];
    ghost var processed: set<ClassName> := {};
    TraversalStart(Subtypes(h), root, h.classes + {root});
    while queue != []
      invariant TraversalInv(Subtypes(h), root, h.classes + {root}, processed, queue)
      invariant targets == DispatchedOver(h, processed, s)
      decreases WeightSeq(h, queue, -1)
    {
      var c := queue[0];
      var m := Dispatch(h, c, s);
      if m.Some? {
        targets := targets + {m.value};
      }
      DispatchedOverAdd(h, processed, c, s);
      VirtualStep(h, root, processed, queue);
      QueueWeightDrops(h, queue);
      queue := queue[1..] + DirectSubtypes(h, c);
      processed := processed + {c};
    }
    TraversalDone(Subtypes(h), root, h.classes + {root}, processed);
    assert processed == (set c | c in h.classes + {root} && Reachable(Subtypes(h), root, c));
  }

  datatype CallKind = STATIC | SPECIAL | VIRTUAL | INTERFACE | DYNAMIC

  /**
   * A call site: its identity, its kind, and the class and subsignature of the method it names.
   * The index is unique across the whole program, as each Invoke statement of the IR is a distinct
   * object, so call sites of different methods never coincide.
   */
  datatype CallSite = CallSite(index: nat, kind: CallKind, declaringClass: ClassName, subsig: Subsignature)

  function OptionSet(o: Option<JMethod>): set<JMethod>
  {
    if o.Some? then {o.value} else {}
  }

  /** The callees CHA resolves a call site to. */
  ghost function ResolveSpec(h: Hierarchy, cs: CallSite): set<JMethod>
    requires WellFormed(h)
  {
    match cs.kind
    case STATIC => OptionSet(StaticTarget(h, cs.declaringClass, cs.subsig))
    case SPECIAL => OptionSet(Dispatch(h, cs.declaringClass, cs.subsig))
    case VIRTUAL => VirtualTargets(h, cs.declaringClass, cs.subsig)
    case INTERFACE => VirtualTargets(h, cs.declaringClass, cs.subsig)
    case DYNAMIC => {}
  }

  /**
   * resolve: a static call goes to the method the named class declares or
   * inherits, a special call to what dispatch finds from the named class,
   * a virtual or interface call to what dispatch finds from every subtype of
   * it, and any other call to nothing.
   */
  method Resolve(h: Hierarchy, cs: CallSite) returns (targets: set<JMethod>)
    requires WellFormed(h)
    ensures targets == ResolveSpec(h, cs)
  {
    targets := {};
    if cs.kind == STATIC {
      var m := StaticTarget(h, cs.declaringClass, cs.subsig);
      if m.Some? {
        targets := {m.value};
      }
    } else if cs.kind == SPECIAL {
      var m := Dispatch(h, cs.declaringClass, cs.subsig);
      if m.Some? {
        targets := {m.value};
      }
    } else if cs.kind == VIRTUAL || cs.kind == INTERFACE {
      targets := ResolveVirtual(h, cs.declaringClass, cs.subsig);
    }
  }

  /** Every method CHA resolves to is a declared method of the hierarchy. */
  lemma ResolvedAreDeclared(h: Hierarchy, cs: CallSite)
    requires WellFormed(h)
    ensures ResolveSpec(h, cs) <= h.declared.Values
  {
    forall m | m in ResolveSpec(h, cs)
      ensures m in h.declared.Values
    {
      if cs.kind == STATIC {
        StaticTargetIsDeclaration(h, cs.declaringClass, cs.subsig);
      } else if cs.kind == SPECIAL {
        DispatchIsConcreteDeclaration(h, cs.declaringClass, cs.subsig);
      } else {
        var c :| c in h.classes + {cs.declaringClass} && Dispatch(h, c, cs.subsig).Some? && Dispatch(h, c, cs.subsig).value == m;
        DispatchIsConcreteDeclaration(h, c, cs.subsig);
      }
      assert (m.declaringClass, cs.subsig) in h.declared;
    }
  }

  /** A call-graph edge: the kind of the call, the call site and the callee. */
  datatype Edge = Edge(kind: CallKind, callSite: CallSite, callee: JMethod)

  datatype CallGraph = CallGraph(entryMethods: set<JMethod>, reachableMethods: set<JMethod>, edges: set<Edge>)

  /** The call sites in each method's body; a method that is absent has none. */
  datatype Program = Program(callSites: map<JMethod, seq<CallSite>>)

  function CallSitesIn(p: Program, m: JMethod): seq<CallSite>
  {
    if m in p.callSites then p.callSites[m] else []
  }

  /** The edges a call site contributes: one per resolved callee, of the call site's kind. */
  ghost function SiteEdges(h: Hierarchy, cs: CallSite): set<Edge>
    requires WellFormed(h)
  {
    set t | t in ResolveSpec(h, cs) :: Edge(cs.kind, cs, t)
  }

  /** The edges and callees of a sequence of call sites. */
  ghost function EdgesOfSites(h: Hierarchy, sites: seq<CallSite>): set<Edge>
    requires WellFormed(h)
  {
    if sites == [] then {} else EdgesOfSites(h, sites[..|sites| - 1]) + SiteEdges(h, sites[|sites| - 1])
  }

  ghost function CalleesOfSites(h: Hierarchy, sites: seq<CallSite>): set<JMethod>
    requires WellFormed(h)
  {
    if sites == [] then {} else CalleesOfSites(h, sites[..|sites| - 1]) + ResolveSpec(h, sites[|sites| - 1])
  }

  ghost function Callees(h: Hierarchy, p: Program, m: JMethod): set<JMethod>
    requires WellFormed(h)
  {
    CalleesOfSites(h, CallSitesIn(p, m))
  }

  /** The callee relation, as a successor function. */
  ghost function CalleeRel(h: Hierarchy, p: Program): JMethod -> set<JMethod>
    requires WellFormed(h)
  {
    m => if WellFormed(h) then Callees(h, p, m) else {}
  }

  lemma {:induction false} CalleesAreDeclared(h: Hierarchy, sites: seq<CallSite>)
    requires WellFormed(h)
    ensures CalleesOfSites(h, sites) <= h.declared.Values
    decreases |sites|
  {
    if sites != [] {
      CalleesAreDeclared(h, sites[..|sites| - 1]);
      ResolvedAreDeclared(h, sites[|sites| - 1]);
    }
  }

  /** Appends the callees of one call site, adding one edge per callee. */
  method AddSiteTargets(cs: CallSite, targets: set<JMethod>, edges: set<Edge>, queue: seq<JMethod>)
    returns (edges': set<Edge>, queue': seq<JMethod>)
    ensures edges' == edges + set t | t in targets :: Edge(cs.kind, cs, t)
    ensures forall t :: t in queue' <==> t in queue || t in targets
  {
    edges', queue' := edges, queue;
    var rest := targets;
    while rest != {}
      invariant rest <= targets
      invariant edges' == edges + set t | t in targets - rest :: Edge(cs.kind, cs, t)
      invariant forall t :: t in queue' <==> t in queue || t in targets - rest
      decreases rest
    {
      var t :| t in rest;
      edges' := edges' + {Edge(cs.kind, cs, t)};
      queue' := queue' + [t];
      rest := rest - {t};
    }
  }

  /** The forEach over a reachable method's call sites: resolve each, add its edges, queue its callees. */
  method ProcessCallSites(h: Hierarchy, sites: seq<CallSite>) returns (edges: set<Edge>, next: seq<JMethod>)
    requires WellFormed(h)
    ensures edges == EdgesOfSites(h, sites)
    ensures forall t :: t in next <==> t in CalleesOfSites(h, sites)
  {
    edges, next := {}, [];
    var i := 0;
    while i < |sites|
      invariant 0 <= i <= |sites|
      invariant edges == EdgesOfSites(h, sites[..i])
      invariant forall t :: t in next <==> t in CalleesOfSites(h, sites[..i])
    {
      var targets := Resolve(h, sites[i]);
      edges, next := AddSiteTargets(sites[i], targets, edges, next);
      assert sites[..i + 1][..i] == sites[..i];
      i := i + 1;
    }
    assert sites[..i] == sites;
  }

  /** The edges contributed by the methods of a set. */
  ghost predicate EdgesOfMethods(h: Hierarchy, p: Program, ms: set<JMethod>, edges: set<Edge>)
    requires WellFormed(h)
  {
    forall e :: e in edges <==> exists m :: m in ms && e in EdgesOfSites(h, CallSitesIn(p, m))
  }

  lemma EdgesOfMethodsAdd(h: Hierarchy, p: Program, ms: set<JMethod>, edges: set<Edge>, m: JMethod)
    requires WellFormed(h) && EdgesOfMethods(h, p, ms, edges)
    ensures EdgesOfMethods(h, p, ms + {m}, edges + EdgesOfSites(h, CallSitesIn(p, m)))
  {
  }

  /** One round of buildCallGraph on a method that was not reachable yet. */
  lemma BuildStep(h: Hierarchy, p: Program, entry: JMethod, reachable: set<JMethod>, queue: seq<JMethod>,
                  next: seq<JMethod>)
    requires WellFormed(h) && queue != [] && queue[0] !in reachable
    requires TraversalInv(CalleeRel(h, p), entry, h.declared.Values + {entry}, reachable, queue)
    requires forall t :: t in next <==> t in CalleesOfSites(h, CallSitesIn(p, queue[0]))
    ensures TraversalInv(CalleeRel(h, p), entry, h.declared.Values + {entry}, reachable + {queue[0]}, queue[1..] + next)
    ensures |h.declared.Values + {entry} - (reachable + {queue[0]})| < |h.declared.Values + {entry} - reachable|
  {
    CalleesAreDeclared(h, CallSitesIn(p, queue[0]));
    TraversalVisit(CalleeRel(h, p), entry, h.declared.Values + {entry}, reachable, queue, next,
                   reachable + {queue[0]}, queue[1..] + next);
  }

  /**
   * buildCallGraph: the reachable methods are those reachable from the entry
   * along resolved calls, and the edges are those of their call sites.
   */
  method BuildCallGraph(h: Hierarchy, p: Program, entry: JMethod) returns (cg: CallGraph)
    requires WellFormed(h)
    ensures cg.entryMethods == {entry}
    ensures forall m :: m in cg.reachableMethods <==> Reachable(CalleeRel(h, p), entry, m)
    ensures EdgesOfMethods(h, p, cg.reachableMethods, cg.edges)
  {
    ghost var universe := h.declared.Values + {entry};
    var reachable: set<JMethod> := {};
    var edges: set<Edge> := {};
    var queue := [entry];
    TraversalStart(CalleeRel(h, p), entry, universe);
    while queue != []
      invariant TraversalInv(CalleeRel(h, p), entry, universe, reachable, queue)
      invariant EdgesOfMethods(h, p, reachable, edges)
      decreases |universe - reachable|, |queue|
    {
      var m := queue[0];
      if m in reachable {
        TraversalSkip(CalleeRel(h, p), entry, universe, reachable, queue);
        queue := queue[1..];
      } else {
        var newEdges, next := ProcessCallSites(h, CallSitesIn(p, m));
        BuildStep(h, p, entry, reachable, queue, next);
        EdgesOfMethodsAdd(h, p, reachable, edges, m);
        reachable := reachable + {m};
        edges := edges + newEdges;
        queue := queue[1..] + next;
      }
    }
    TraversalDone(CalleeRel(h, p), entry, universe, reachable);
    cg := CallGraph({entry}, reachable, edges);
  }
}
