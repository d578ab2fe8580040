/**
 * The helpers of A8/TaintAnalysiss.java: queries on the taint configuration
 * (sources, sinks and taint transfers), the making and reading of taint
 * objects, and the collection of taint flows from the pointer analysis's
 * result.
 *
 * The configuration is given: reading it from a file is not part of this
 * model. Its sources and transfers are sets in Tai-e; here they are
 * sequences in the order those sets iterate, since getMethodTypeSource and
 * getType depend on that order. The TaintManager's taint objects are the
 * TaintObj objects of the IR: a taint object is made from, and remembers, its
 * source call and its type.
 */
module Taint {
  import opened Wrappers
  import opened PtaIr
  import opened PtaCore
  import opened CsElements

  /** The slots a taint transfer can name besides argument positions 0, 1, ...: the receiver and the result. */
  const BASE: int := -1
  const RESULT: int := -2

  /** A call to meth returns taint of type ty. */
  datatype Source = Source(meth: Method, ty: JType)
  /** Argument index of a call to meth is a sink. */
  datatype Sink = Sink(meth: Method, index: int)
  /** A call to meth passes taint from slot from to slot to, re-typed to ty. */
  datatype TaintTransfer = TaintTransfer(meth: Method, from: int, to: int, ty: JType)

  datatype TaintConfig = TaintConfig(sources: seq<Source>, sinks: set<Sink>, transfers: seq<TaintTransfer>)

  /** Taint made at the call sourceCall reaches argument index of the call sinkCall. */
  datatype TaintFlow = TaintFlow(sourceCall: CallSiteId, sinkCall: CallSiteId, index: int)

  // ----- Taint objects -----

  predicate IsTaint(o: CSObj)
  {
    o.obj.TaintObj?
  }

  /** The source call a taint object was made for; none for any other object. */
  function GetSource(o: CSObj): Option<CallSiteId>
  {
    if o.obj.TaintObj? then Some(o.obj.source) else None
  }

  /** The taint object for a source call and a type, always in the empty context. */
  function GetTaintObj(empty: Context, source: CallSiteId, ty: JType): (r: CSObj)
    ensures IsTaint(r) && GetSource(r) == Some(source) && r.ctx == empty
  {
    CSObj(empty, TaintObj(source, ty))
  }

  /** Distinct (source, type) pairs give distinct taint objects, and a taint object in the empty context is remade from its own source and type. */
  lemma TaintObjRoundTrip(empty: Context, o: CSObj, source: CallSiteId, ty: JType)
    ensures IsTaint(o) && o.ctx == empty ==> GetTaintObj(empty, GetSource(o).value, o.obj.ty) == o
    ensures GetTaintObj(empty, source, ty) == o ==> o.obj == TaintObj(source, ty)
  {
  }

  // ----- Configuration queries -----

  /** The type of the last source in the sequence whose method is m, if any. */
  function LastSourceType(sources: seq<Source>, m: Method): Option<JType>
  {
    if sources == [] then None
    else if sources[|sources| - 1].meth == m then Some(sources[|sources| - 1].ty)
    else LastSourceType(sources[..|sources| - 1], m)
  }

  /** LastSourceType finds nothing exactly when no source names m, and otherwise the last source naming m. */
  lemma {:induction false} LastSourceTypeSpec(sources: seq<Source>, m: Method)
    ensures LastSourceType(sources, m).None? <==> forall i :: 0 <= i < |sources| ==> sources[i].meth != m
    ensures var r := LastSourceType(sources, m);
            r.Some? ==> exists i :: 0 <= i < |sources| && sources[i] == Source(m, r.value)
                                   && forall j :: i < j < |sources| ==> sources[j].meth != m
    decreases |sources|
  {
    if sources != [] && sources[|sources| - 1].meth != m {
      var init := sources[..|sources| - 1];
      LastSourceTypeSpec(init, m);
      assert forall i :: 0 <= i < |init| ==> init[i] == sources[i];
    }
  }

  /** getMethodTypeSource: the type of the last configured source with method m, in iteration order, or none. */
  method GetMethodTypeSource(config: TaintConfig, m: Method) returns (r: Option<JType>)
    ensures r == LastSourceType(config.sources, m)
  {
    var sources := config.sources;
    r := None;
    for i := 0 to |sources|
      invariant r == LastSourceType(sources[..i], m)
    {
      assert sources[..i + 1][..i] == sources[..i];
      if sources[i].meth == m {
        r := Some(sources[i].ty);
      }
    }
    assert sources[..|sources|] == sources;
  }

  /** The type of the first transfer in the sequence with method m and slots from and to, if any. */
  function FirstTransferType(transfers: seq<TaintTransfer>, m: Method, from: int, to: int): Option<JType>
  {
    if transfers == [] then None
    else if transfers[0].meth == m && transfers[0].from == from && transfers[0].to == to then Some(transfers[0].ty)
    else FirstTransferType(transfers[1..], m, from, to)
  }

  /**
   * FirstTransferType finds nothing exactly when no transfer matches m, from
   * and to, and otherwise the first matching transfer.
   */
  lemma {:induction false} FirstTransferTypeSpec(transfers: seq<TaintTransfer>, m: Method, from: int, to: int)
    ensures FirstTransferType(transfers, m, from, to).None? <==>
              forall i :: 0 <= i < |transfers| ==> transfers[i].meth != m || transfers[i].from != from || transfers[i].to != to
    ensures var r := FirstTransferType(transfers, m, from, to);
            r.Some? ==> exists i :: 0 <= i < |transfers| && transfers[i] == TaintTransfer(m, from, to, r.value)
                                   && forall j :: 0 <= j < i ==> transfers[j].meth != m || transfers[j].from != from || transfers[j].to != to
    decreases |transfers|
  {
    if transfers != [] && !(transfers[0].meth == m && transfers[0].from == from && transfers[0].to == to) {
      FirstTransferTypeSpec(transfers[1..], m, from, to);
      assert forall i :: 1 <= i < |transfers| ==> transfers[i] == transfers[1..][i - 1];
    }
  }

  /** getType: the type of the first configured transfer of m from slot from to slot to, in iteration order, or none. */
  method GetType(config: TaintConfig, m: Method, from: int, to: int) returns (r: Option<JType>)
    ensures r == FirstTransferType(config.transfers, m, from, to)
  {
    var transfers := config.transfers;
    for i := 0 to |transfers|
      invariant FirstTransferType(transfers[i..], m, from, to) == FirstTransferType(transfers, m, from, to)
    {
      var t := transfers[i];
      assert transfers[i..][1..] == transfers[i + 1..];
      if t.meth == m && t.from == from && t.to == to {
        return Some(t.ty);
      }
    }
    return None;
  }

  /** The transfer type of m from argument i to the result. */
  method Arg2Result(config: TaintConfig, m: Method, i: int) returns (r: Option<JType>)
    ensures r == FirstTransferType(config.transfers, m, i, RESULT)
  {
    r := GetType(config, m, i, RESULT);
  }

  /** The transfer type of m from argument i to the receiver. */
  method Arg2Base(config: TaintConfig, m: Method, i: int) returns (r: Option<JType>)
    ensures r == FirstTransferType(config.transfers, m, i, BASE)
  {
    r := GetType(config, m, i, BASE);
  }

  /** The transfer type of m from the receiver to the result. */
  method Base2Result(config: TaintConfig, m: Method) returns (r: Option<JType>)
    ensures r == FirstTransferType(config.transfers, m, BASE, RESULT)
  {
    r := GetType(config, m, BASE, RESULT);
  }

  // ----- Collecting taint flows -----

  /** The flows the taint objects among objs bring to argument index of the call at site. */
  ghost function ArgFlows(objs: set<CSObj>, site: CallSiteId, index: int): set<TaintFlow>
  {
    set o | o in objs && IsTaint(o) :: TaintFlow(o.obj.source, site, index)
  }

  /**
   * The flows reported for a call edge, looking at the callee's first n
   * parameter positions: for every position i that is a sink of the callee,
   * every taint object the i-th argument points to in the call site's
   * context.
   */
  ghost function EdgeFlows(config: TaintConfig, pt: map<Pointer, set<CSObj>>, ctx: Context, args: seq<Var>,
                           callee: Method, site: CallSiteId, n: nat): set<TaintFlow>
    requires n <= |args|
  {
    set i, o | 0 <= i < n && Sink(callee, i) in config.sinks && o in PtOf(pt, CSVar(ctx, args[i])) && IsTaint(o)
      :: TaintFlow(o.obj.source, site, i)
  }

  /** The callee of every call edge has no more parameters than its call site passes arguments. */
  ghost predicate ArgsCover(prog: Program, edges: set<CallEdge>)
  {
    forall e :: e in edges ==> |prog.params(e.callee.meth)| <= |prog.invokes(e.callSite.site).args|
  }

  /** The flows collectTaintFlows reports, over a set of call edges. */
  ghost function ReportedFlows(prog: Program, config: TaintConfig, pt: map<Pointer, set<CSObj>>, edges: set<CallEdge>): set<TaintFlow>
    requires ArgsCover(prog, edges)
  {
    set e, f | e in edges
                && f in EdgeFlows(config, pt, e.callSite.ctx, prog.invokes(e.callSite.site).args,
                                  e.callee.meth, e.callSite.site, |prog.params(e.callee.meth)|) :: f
  }

  /**
   * A reported flow is exactly a taint object in the points-to set, in the
   * call site's context, of an argument at a sink position of a call edge's
   * callee: non-sink positions and non-taint objects bring none.
   */
  lemma ReportedFlowsMembers(prog: Program, config: TaintConfig, pt: map<Pointer, set<CSObj>>, edges: set<CallEdge>,
                             f: TaintFlow)
    requires ArgsCover(prog, edges)
    ensures f in ReportedFlows(prog, config, pt, edges) <==>
              exists e, o :: e in edges && f.sinkCall == e.callSite.site
                && 0 <= f.index < |prog.params(e.callee.meth)| && Sink(e.callee.meth, f.index) in config.sinks
                && o in PtOf(pt, CSVar(e.callSite.ctx, prog.invokes(e.callSite.site).args[f.index]))
                && IsTaint(o) && GetSource(o) == Some(f.sourceCall)
  {
    if f in ReportedFlows(prog, config, pt, edges) {
      var e :| e in edges && f in EdgeFlows(config, pt, e.callSite.ctx, prog.invokes(e.callSite.site).args,
                                            e.callee.meth, e.callSite.site, |prog.params(e.callee.meth)|);
      var args := prog.invokes(e.callSite.site).args;
      var i, o :| 0 <= i < |prog.params(e.callee.meth)| && Sink(e.callee.meth, i) in config.sinks
                  && o in PtOf(pt, CSVar(e.callSite.ctx, args[i])) && IsTaint(o) && f == TaintFlow(o.obj.source, e.callSite.site, i);
    }
    if exists e, o :: e in edges && f.sinkCall == e.callSite.site
         && 0 <= f.index < |prog.params(e.callee.meth)| && Sink(e.callee.meth, f.index) in config.sinks
         && o in PtOf(pt, CSVar(e.callSite.ctx, prog.invokes(e.callSite.site).args[f.index]))
         && IsTaint(o) && GetSource(o) == Some(f.sourceCall) {
      var e, o :| e in edges && f.sinkCall == e.callSite.site
         && 0 <= f.index < |prog.params(e.callee.meth)| && Sink(e.callee.meth, f.index) in config.sinks
         && o in PtOf(pt, CSVar(e.callSite.ctx, prog.invokes(e.callSite.site).args[f.index]))
         && IsTaint(o) && GetSource(o) == Some(f.sourceCall);
      var args := prog.invokes(e.callSite.site).args;
      assert f == TaintFlow(o.obj.source, e.callSite.site, f.index);
      assert f in EdgeFlows(config, pt, e.callSite.ctx, args, e.callee.meth, e.callSite.site, |prog.params(e.callee.meth)|);
    }
  }

  /** The flows of the taint objects in objs at argument index of site, one object at a time. */
  method CollectArgFlows(objs: set<CSObj>, site: CallSiteId, index: int) returns (flows: set<TaintFlow>)
    ensures flows == ArgFlows(objs, site, index)
  {
    flows := {};
    var rest := objs;
    while rest != {}
      invariant rest <= objs
      invariant flows == ArgFlows(objs - rest, site, index)
      decreases rest
    {
      var o :| o in rest;
      if IsTaint(o) {
        flows := flows + {TaintFlow(o.obj.source, site, index)};
      }
      rest := rest - {o};
      assert ArgFlows(objs - rest, site, index) ==
             ArgFlows(objs - (rest + {o}), site, index) + (if IsTaint(o) then {TaintFlow(o.obj.source, site, index)} else {});
    }
    assert objs - rest == objs;
  }

  /** The flows of one call edge: every sink position among the callee's first n, in order. */
  method CollectEdgeFlows(config: TaintConfig, pt: map<Pointer, set<CSObj>>, ctx: Context, args: seq<Var>,
                          callee: Method, site: CallSiteId, n: nat) returns (flows: set<TaintFlow>)
    requires n <= |args|
    ensures flows == EdgeFlows(config, pt, ctx, args, callee, site, n)
  {
    flows := {};
    for i := 0 to n
      invariant flows == EdgeFlows(config, pt, ctx, args, callee, site, i)
    {
      var argFlows: set<TaintFlow> := {};
      if Sink(callee, i) in config.sinks {
        argFlows := CollectArgFlows(PtOf(pt, CSVar(ctx, args[i])), site, i);
      }
      flows := flows + argFlows;
      assert EdgeFlows(config, pt, ctx, args, callee, site, i + 1) ==
             EdgeFlows(config, pt, ctx, args, callee, site, i) + argFlows by {
        forall f | f in EdgeFlows(config, pt, ctx, args, callee, site, i + 1)
          ensures f in EdgeFlows(config, pt, ctx, args, callee, site, i) + argFlows
        {
          var j, o :| 0 <= j < i + 1 && Sink(callee, j) in config.sinks && o in PtOf(pt, CSVar(ctx, args[j])) && IsTaint(o)
                      && f == TaintFlow(o.obj.source, site, j);
        }
      }
    }
  }

  /**
   * collectTaintFlows: over every call edge, every argument at a sink
   * position of the callee, every taint object it points to in the call
   * site's context; duplicates collapse.
   */
  method CollectTaintFlows(prog: Program, config: TaintConfig, pt: map<Pointer, set<CSObj>>, callEdges: set<CallEdge>)
    returns (flows: set<TaintFlow>)
    requires ArgsCover(prog, callEdges)
    ensures flows == ReportedFlows(prog, config, pt, callEdges)
  {
    flows := {};
    var rest := callEdges;
    while rest != {}
      invariant rest <= callEdges
      invariant flows == ReportedFlows(prog, config, pt, callEdges - rest)
      decreases rest
    {
      var e :| e in rest;
      var args := prog.invokes(e.callSite.site).args;
      var n := |prog.params(e.callee.meth)|;
      var edgeFlows := CollectEdgeFlows(config, pt, e.callSite.ctx, args, e.callee.meth, e.callSite.site, n);
      flows := flows + edgeFlows;
      rest := rest - {e};
      assert ReportedFlows(prog, config, pt, callEdges - rest) ==
             ReportedFlows(prog, config, pt, callEdges - (rest + {e})) + edgeFlows;
    }
    assert callEdges - rest == callEdges;
  }
}
