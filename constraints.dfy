/** The constraint library: power balance, the DC flow equation with slack,
    the substation angle reference, the big-M slack bounds, the capacity
    bounds, the radial edge count and the one-cable-type limit, each as a
    predicate over an assignment; the checks that make constraint generation
    fail; and feasibility as the conjunction of all rules. */
module Constraints {
  import opened GridTypes
  import opened EdgeIndexing
  import opened Costs

  // ---------------------------------------------------------------------
  // Power balance

  /** Flow on edge (i, j) summed over the cable types 0 .. u - 1. */
  function LineFlow(inst: Instance, a: Assignment, i: NodeId, j: NodeId, u: nat): real
    requires Declared(inst, a) && (i, j) in inst.edges && u <= |inst.types|
  {
    if u == 0 then 0.0 else LineFlow(inst, a, i, j, u - 1) + a.flow[(i, j, u - 1)]
  }

  /** Flows on the edges from i to the first n nodes that lie above i. */
  function Outgoing(inst: Instance, a: Assignment, i: NodeId, n: nat): real
    requires Indexed(inst) && Declared(inst, a)
    requires i in inst.Nodes() && n <= |inst.Nodes()|
  {
    if n == 0 then 0.0
    else
      var j := inst.Nodes()[n - 1];
      Outgoing(inst, a, i, n - 1)
        + (if i != j && i < j then LineFlow(inst, a, i, j, |inst.types|) else 0.0)
  }

  /** Flows on the edges to i from the first n nodes that lie below i. */
  function Incoming(inst: Instance, a: Assignment, i: NodeId, n: nat): real
    requires Indexed(inst) && Declared(inst, a)
    requires i in inst.Nodes() && n <= |inst.Nodes()|
  {
    if n == 0 then 0.0
    else
      var j := inst.Nodes()[n - 1];
      Incoming(inst, a, i, n - 1)
        + (if i != j && i > j then LineFlow(inst, a, j, i, |inst.types|) else 0.0)
  }

  /** Injection at i: the substation power when i is a substation, else 0. */
  function SubInjection(inst: Instance, a: Assignment, i: NodeId): real
    requires Declared(inst, a)
  {
    if i in inst.subs then a.powerSub[i] else 0.0
  }

  /** Power into node i: injection, plus flows on edges to higher-indexed
      nodes, minus flows on edges from lower-indexed nodes. */
  function Inflow(inst: Instance, a: Assignment, i: NodeId): real
    requires Indexed(inst) && Declared(inst, a) && i in inst.Nodes()
  {
    SubInjection(inst, a, i) + Outgoing(inst, a, i, |inst.Nodes()|)
      - Incoming(inst, a, i, |inst.Nodes()|)
  }

  /** The power-balance rule at node i. */
  ghost predicate PowerBalance(inst: Instance, a: Assignment, i: NodeId)
    requires Indexed(inst) && Declared(inst, a) && i in inst.Nodes()
  {
    i in inst.demand && inst.demand[i] == Inflow(inst, a, i)
  }

  /** The accumulation loops of the power-balance rule. */
  method NodeInflow(inst: Instance, a: Assignment, i: NodeId) returns (pIn: real)
    requires Indexed(inst) && Declared(inst, a) && i in inst.Nodes()
    ensures pIn == Inflow(inst, a, i)
  {
    var nodes := inst.Nodes();
    var sub := SubInjection(inst, a, i);
    pIn := 0.0;
    if i in inst.subs {
      pIn := pIn + a.powerSub[i];
    }
    for n := 0 to |nodes|
      invariant pIn == sub + Outgoing(inst, a, i, n)
    {
      var j := nodes[n];
      if i != j && i < j {
        pIn := AddLineFlows(inst, a, i, j, pIn);
      }
    }
    for n := 0 to |nodes|
      invariant pIn == sub + Outgoing(inst, a, i, |nodes|) - Incoming(inst, a, i, n)
    {
      var j := nodes[n];
      if i != j && i > j {
        pIn := SubtractLineFlows(inst, a, j, i, pIn);
      }
    }
  }

  /** The inner loop adding the flows of every cable type on edge (i, j). */
  method AddLineFlows(inst: Instance, a: Assignment, i: NodeId, j: NodeId, p0: real) returns (p: real)
    requires Declared(inst, a) && (i, j) in inst.edges
    ensures p == p0 + LineFlow(inst, a, i, j, |inst.types|)
  {
    p := p0;
    for t := 0 to |inst.types|
      invariant p == p0 + LineFlow(inst, a, i, j, t)
    {
      p := p + a.flow[(i, j, t)];
    }
  }

  /** The inner loop subtracting the flows of every cable type on edge (j, i). */
  method SubtractLineFlows(inst: Instance, a: Assignment, j: NodeId, i: NodeId, p0: real) returns (p: real)
    requires Declared(inst, a) && (j, i) in inst.edges
    ensures p == p0 - LineFlow(inst, a, j, i, |inst.types|)
  {
    p := p0;
    for t := 0 to |inst.types|
      invariant p == p0 - LineFlow(inst, a, j, i, t)
    {
      p := p - a.flow[(j, i, t)];
    }
  }

  /** Every pair the power balance at i reads lies in the edge index. */
  lemma PowerBalanceReadsEdges(inst: Instance, i: NodeId, j: NodeId)
    requires Indexed(inst) && i in inst.Nodes() && j in inst.Nodes() && i != j
    ensures i < j ==> (i, j) in inst.edges
    ensures i > j ==> (j, i) in inst.edges
  {
  }

  // ---------------------------------------------------------------------
  // DC flow, angle reference, slack and capacity bounds

  /** Reactance of edge e with cable type t: length * x_ohm_per_km / 1000. */
  function Reactance(inst: Instance, e: Edge, t: nat): real
    requires e in inst.lengths && t < |inst.types|
  {
    inst.lengths[e] * inst.types[t].xOhmPerKm / 1000.0
  }

  /** Every edge has a length and a non-zero reactance for every cable type
      (only read when the catalogue is not empty). */
  predicate LinesKnown(inst: Instance) {
    |inst.types| > 0 ==>
      forall e :: e in inst.edges ==>
        e in inst.lengths && forall t :: 0 <= t < |inst.types| ==> Reactance(inst, e, t) != 0.0
  }

  /** The DC flow term (theta_i - theta_j) * (pi / 180) / reactance. */
  function AngleFlow(inst: Instance, a: Assignment, k: VarKey): real
    requires Indexed(inst) && Declared(inst, a) && LinesKnown(inst) && IsVarKey(inst, k)
  {
    ((a.theta[k.0] - a.theta[k.1]) * inst.cfg.degToRad) / Reactance(inst, (k.0, k.1), k.2)
  }

  /** The DC flow rule: flow equals the angle term plus the slack. */
  ghost predicate DcFlow(inst: Instance, a: Assignment, k: VarKey)
    requires Indexed(inst) && Declared(inst, a) && LinesKnown(inst) && IsVarKey(inst, k)
  {
    a.flow[k] == AngleFlow(inst, a, k) + a.slack[k]
  }

  /** The angle-reference rule at substation i. */
  ghost predicate SlackAngle(inst: Instance, a: Assignment, i: NodeId)
    requires Declared(inst, a) && i in inst.subs
  {
    a.theta[i] == 0.0
  }

  ghost predicate SlackPos(inst: Instance, a: Assignment, k: VarKey)
    requires Declared(inst, a) && IsVarKey(inst, k)
  {
    a.slack[k] <= (1.0 - a.x[k] as real) * BIG_M
  }

  ghost predicate SlackNeg(inst: Instance, a: Assignment, k: VarKey)
    requires Declared(inst, a) && IsVarKey(inst, k)
  {
    a.slack[k] >= (-1.0) * (1.0 - a.x[k] as real) * BIG_M
  }

  /** Per-unit power limit of one cable of type t: I_max * V_BASE * 10^3 / (S_BASE * 10^6). */
  function CapacityLimit(inst: Instance, t: nat): real
    requires inst.cfg.Valid() && t < |inst.types|
  {
    (inst.types[t].iMaxA * inst.cfg.vBase * 1000.0) / (inst.cfg.sBase * 1000000.0)
  }

  ghost predicate CapacityPos(inst: Instance, a: Assignment, k: VarKey)
    requires inst.cfg.Valid() && Declared(inst, a) && IsVarKey(inst, k)
  {
    a.flow[k] <= (a.x[k] as real) * CapacityLimit(inst, k.2)
  }

  ghost predicate CapacityNeg(inst: Instance, a: Assignment, k: VarKey)
    requires inst.cfg.Valid() && Declared(inst, a) && IsVarKey(inst, k)
  {
    a.flow[k] >= (-1.0) * (a.x[k] as real) * CapacityLimit(inst, k.2)
  }

  // ---------------------------------------------------------------------
  // Radiality and one cable type per edge

  /** Number of cable types 0 .. u - 1 chosen on edge (i, j). */
  function TypeCount(inst: Instance, a: Assignment, i: NodeId, j: NodeId, u: nat): nat
    requires Declared(inst, a) && (i, j) in inst.edges && u <= |inst.types|
  {
    if u == 0 then 0 else TypeCount(inst, a, i, j, u - 1) + a.x[(i, j, u - 1)]
  }

  /** Sum of x over the first m edges and all cable types. */
  function BuiltUpTo(inst: Instance, a: Assignment, m: nat): nat
    requires Declared(inst, a) && m <= |inst.edges|
  {
    if m == 0 then 0
    else
      var e := inst.edges[m - 1];
      BuiltUpTo(inst, a, m - 1) + TypeCount(inst, a, e.0, e.1, |inst.types|)
  }

  /** The radial rule: as many cables as nodes minus substations. */
  ghost predicate Radial(inst: Instance, a: Assignment)
    requires Declared(inst, a)
  {
    BuiltUpTo(inst, a, |inst.edges|) == |inst.Nodes()| - |inst.subs|
  }

  /** The one-cable-type rule on edge (i, j). */
  ghost predicate OneLinetype(inst: Instance, a: Assignment, i: NodeId, j: NodeId)
    requires Declared(inst, a) && (i, j) in inst.edges
  {
    TypeCount(inst, a, i, j, |inst.types|) <= 1
  }

  /** The accumulation loop of the one-cable-type rule. */
  method NumberOfLinetypes(inst: Instance, a: Assignment, i: NodeId, j: NodeId) returns (count: nat)
    requires Declared(inst, a) && (i, j) in inst.edges
    ensures count == TypeCount(inst, a, i, j, |inst.types|)
  {
    count := 0;
    for t := 0 to |inst.types|
      invariant count == TypeCount(inst, a, i, j, t)
    {
      count := count + a.x[(i, j, t)];
    }
  }

  // ---------------------------------------------------------------------
  // Constraint generation

  /** The instance lets every rule be generated without an error. A rule
      whose expression holds no variable evaluates to a plain bool, which
      Pyomo refuses; this happens to the balance rule at a node that touches
      no variable, and to the radial rule when x is indexed by an empty set. */
  predicate WellFormed(inst: Instance) {
    && (forall i :: i in inst.Nodes() ==> i in inst.demand && TouchesVariable(inst, i))
    && LinesKnown(inst)
    && |inst.edges| > 0 && |inst.types| > 0
    && (forall c :: c in inst.costTypes ==> ParseCostType(c).Success?)
    && OmInputsPresent(inst)
  }

  /** The balance rule at i reads a variable: i is a substation, or some
      other node shares a line with i and the catalogue is not empty. */
  predicate TouchesVariable(inst: Instance, i: NodeId) {
    i in inst.subs || (|inst.types| > 0 && exists j :: j in inst.Nodes() && j != i)
  }

  /** The error the balance rule at node i raises: the demand lookup comes
      first, then the check that the rule holds a variable. */
  function NodeError(inst: Instance, i: NodeId): Option<FormulationError> {
    if i !in inst.demand then Some(NoDemand(i))
    else if !TouchesVariable(inst, i) then Some(TrivialBalance(i))
    else None
  }

  /** The balance rule at i raises nothing exactly when i has a demand entry
      and the rule reads a variable: the substation power of i, or a flow on
      a line at i. A missing demand entry is reported before a missing
      variable. */
  lemma NodeErrorReadsVariable(inst: Instance, i: NodeId)
    requires Indexed(inst) && i in inst.Nodes()
    ensures NodeError(inst, i).None? <==>
              i in inst.demand &&
              (i in inst.subs || exists k :: IsVarKey(inst, k) && (k.0 == i || k.1 == i))
    ensures NodeError(inst, i) == Some(NoDemand(i)) <==> i !in inst.demand
  {
    if i !in inst.subs && |inst.types| > 0 && exists j :: j in inst.Nodes() && j != i {
      var j :| j in inst.Nodes() && j != i;
      var k := if i < j then (i, j, 0) else (j, i, 0);
      assert IsVarKey(inst, k) && (k.0 == i || k.1 == i);
    }
    if exists k :: IsVarKey(inst, k) && (k.0 == i || k.1 == i) {
      var k :| IsVarKey(inst, k) && (k.0 == i || k.1 == i);
      var j := if k.0 == i then k.1 else k.0;
      assert j in inst.Nodes() && j != i;
    }
  }

  /** A balance rule that reads no variable is the constant comparison
      demand == 0: the inflow at i is 0 whatever the assignment. */
  lemma TrivialBalanceIsConstant(inst: Instance, a: Assignment, i: NodeId)
    requires Indexed(inst) && Declared(inst, a) && i in inst.Nodes()
    requires !TouchesVariable(inst, i)
    ensures Inflow(inst, a, i) == 0.0
  {
    NoLineFlowAt(inst, a, i, |inst.Nodes()|);
  }

  lemma {:induction false} NoLineFlowAt(inst: Instance, a: Assignment, i: NodeId, n: nat)
    requires Indexed(inst) && Declared(inst, a) && i in inst.Nodes() && n <= |inst.Nodes()|
    requires !TouchesVariable(inst, i)
    ensures Outgoing(inst, a, i, n) == 0.0 && Incoming(inst, a, i, n) == 0.0
  {
    if n > 0 {
      NoLineFlowAt(inst, a, i, n - 1);
      var j := inst.Nodes()[n - 1];
      if i != j {
        assert j in inst.Nodes();
      }
    }
  }

  /** The first error the balance rules raise over the first n nodes. */
  function BalanceError(inst: Instance, n: nat): (r: Option<FormulationError>)
    requires n <= |inst.Nodes()|
    ensures r.None? <==> forall k :: 0 <= k < n ==> NodeError(inst, inst.Nodes()[k]).None?
    ensures r.Some? ==> exists k :: 0 <= k < n && r == NodeError(inst, inst.Nodes()[k]) &&
                          forall p :: 0 <= p < k ==> NodeError(inst, inst.Nodes()[p]).None?
  {
    if n == 0 then None
    else
      match BalanceError(inst, n - 1)
      case Some(err) => Some(err)
      case None => NodeError(inst, inst.Nodes()[n - 1])
  }

  /** The scan over all nodes finds no error exactly when every node has a
      demand entry and a variable in its balance. */
  lemma BalanceErrorComplete(inst: Instance)
    ensures BalanceError(inst, |inst.Nodes()|).None? <==>
              forall i :: i in inst.Nodes() ==> i in inst.demand && TouchesVariable(inst, i)
  {
    if BalanceError(inst, |inst.Nodes()|).None? {
      forall i | i in inst.Nodes() ensures i in inst.demand && TouchesVariable(inst, i) {
        var k :| 0 <= k < |inst.Nodes()| && inst.Nodes()[k] == i;
        assert NodeError(inst, inst.Nodes()[k]).None?;
      }
    }
  }

  /** The error the radial rule raises: its sum over x is empty, so the rule
      is a plain bool. The one-cable-type rule is trivial only when the
      catalogue is empty, and then the radial rule has failed first. */
  function RadialError(inst: Instance): (r: Option<FormulationError>)
    ensures r.None? <==> exists k :: IsVarKey(inst, k)
  {
    if |inst.edges| == 0 || |inst.types| == 0 then Some(TrivialRadial)
    else
      assert IsVarKey(inst, (inst.edges[0].0, inst.edges[0].1, 0));
      None
  }

  /** When the radial rule errs, its left-hand side is 0 for every
      assignment, so the rule compares two constants. */
  lemma TrivialRadialIsConstant(inst: Instance, a: Assignment)
    requires Declared(inst, a) && RadialError(inst).Some?
    ensures BuiltUpTo(inst, a, |inst.edges|) == 0
  {
    if |inst.types| == 0 {
      NothingToBuild(inst, a, |inst.edges|);
    }
  }

  lemma {:induction false} NothingToBuild(inst: Instance, a: Assignment, m: nat)
    requires Declared(inst, a) && |inst.types| == 0 && m <= |inst.edges|
    ensures BuiltUpTo(inst, a, m) == 0
  {
    if m > 0 {
      NothingToBuild(inst, a, m - 1);
    }
  }

  /** The first error the DC flow rules of edge e raise over types 0 .. u - 1. */
  function LineError(inst: Instance, e: Edge, u: nat): (r: Option<FormulationError>)
    requires u <= |inst.types|
    ensures r.None? <==> u == 0 || (e in inst.lengths && forall t :: 0 <= t < u ==> Reactance(inst, e, t) != 0.0)
    ensures r.Some? ==> r.value == NoLength(e) || r.value.ZeroReactance?
  {
    if u == 0 then None
    else
      match LineError(inst, e, u - 1)
      case Some(err) => Some(err)
      case None =>
        if e !in inst.lengths then Some(NoLength(e))
        else if Reactance(inst, e, u - 1) == 0.0 then Some(ZeroReactance(e, u - 1))
        else None
  }

  /** The first error the DC flow rules raise over the first m edges. */
  function LinesError(inst: Instance, m: nat): (r: Option<FormulationError>)
    requires m <= |inst.edges|
    ensures r.None? <==> forall p :: 0 <= p < m ==> LineError(inst, inst.edges[p], |inst.types|).None?
    ensures r.Some? ==> r.value.NoLength? || r.value.ZeroReactance?
  {
    if m == 0 then None
    else
      match LinesError(inst, m - 1)
      case Some(err) => Some(err)
      case None => LineError(inst, inst.edges[m - 1], |inst.types|)
  }

  /** The scan over all edges finds no error exactly when every line is known. */
  lemma LinesErrorComplete(inst: Instance)
    ensures LinesError(inst, |inst.edges|).None? <==> LinesKnown(inst)
  {
    if LinesError(inst, |inst.edges|).Some? && |inst.types| > 0 {
      var p :| 0 <= p < |inst.edges| && LineError(inst, inst.edges[p], |inst.types|).Some?;
      assert inst.edges[p] in inst.edges;
    }
    if LinesError(inst, |inst.edges|).None? && |inst.types| > 0 {
      forall e | e in inst.edges
        ensures e in inst.lengths && forall t :: 0 <= t < |inst.types| ==> Reactance(inst, e, t) != 0.0
      {
        var p :| 0 <= p < |inst.edges| && inst.edges[p] == e;
        assert LineError(inst, inst.edges[p], |inst.types|).None?;
      }
    }
  }

  /** The error the cost rule for `name` raises, if any. */
  function CostError(inst: Instance, name: string): (r: Option<FormulationError>)
    ensures r.None? <==>
      ParseCostType(name).Success? &&
      (name == "om" ==> "investment" in inst.costTypes && |inst.types| > 0)
  {
    match ParseCostType(name)
    case Failure(err) => Some(err)
    case Success(Om) =>
      if "investment" !in inst.costTypes then Some(NoInvestmentCost)
      else if |inst.types| == 0 then Some(NoLineType0)
      else None
    case Success(_) => None
  }

  /** The first error the cost rules raise over the first m cost types. */
  function CostsError(inst: Instance, m: nat): (r: Option<FormulationError>)
    requires m <= |inst.costTypes|
    ensures r.None? <==> forall p :: 0 <= p < m ==> CostError(inst, inst.costTypes[p]).None?
    ensures r.Some? ==> r.value.UnknownCostType? || r.value == NoInvestmentCost || r.value == NoLineType0
  {
    if m == 0 then None
    else
      match CostsError(inst, m - 1)
      case Some(err) => Some(err)
      case None => CostError(inst, inst.costTypes[m - 1])
  }

  /** Constraint generation in the assembly's order: power balance, DC flow,
      the radial rule, then the cost definitions. It fails exactly when the
      instance is not well formed. */
  function Formulate(inst: Instance): (r: Result<()>)
    ensures r.Success? <==> WellFormed(inst)
    ensures r.Failure? && r.error.NoDemand? ==>
              r.error.node in inst.Nodes() && r.error.node !in inst.demand
    ensures r.Failure? && r.error.TrivialBalance? ==>
              r.error.node in inst.Nodes() && !TouchesVariable(inst, r.error.node)
    ensures r.Failure? && r.error.TrivialRadial? ==> forall k :: !IsVarKey(inst, k)
  {
    match BalanceError(inst, |inst.Nodes()|)
    case Some(err) => Failure(err)
    case None =>
      BalanceErrorComplete(inst);
      LinesErrorComplete(inst);
      match LinesError(inst, |inst.edges|)
      case Some(err) => Failure(err)
      case None =>
        match RadialError(inst)
        case Some(err) => Failure(err)
        case None =>
          match CostsError(inst, |inst.costTypes|)
          case Some(err) => Failure(err)
          case None => Success(())
  }

  /** A node without a demand entry stops the formulation at power balance:
      with its own missing demand, or, when the catalogue is empty, possibly
      at an earlier consumer whose balance holds no variable. */
  lemma MissingDemandFails(inst: Instance, i: NodeId)
    requires i in inst.Nodes() && i !in inst.demand
    ensures Formulate(inst).Failure?
    ensures Formulate(inst).error.NoDemand? || Formulate(inst).error.TrivialBalance?
    ensures |inst.types| > 0 ==> Formulate(inst).error.NoDemand?
  {
    var n := |inst.Nodes()|;
    var k :| 0 <= k < n && inst.Nodes()[k] == i;
    assert NodeError(inst, inst.Nodes()[k]).Some?;
    var r := BalanceError(inst, n);
    var f :| 0 <= f < n && r == NodeError(inst, inst.Nodes()[f]);
  }


  // ---------------------------------------------------------------------
  // Feasibility

  /** An assignment satisfies every rule of the model. */
  ghost predicate Feasible(inst: Instance, a: Assignment) {
    && inst.cfg.Valid()
    && Indexed(inst)
    && WellFormed(inst)
    && Declared(inst, a)
    && WithinDomains(a)
    && (forall i {:trigger PowerBalance(inst, a, i)} :: i in inst.Nodes() ==> PowerBalance(inst, a, i))
    && (forall k {:trigger DcFlow(inst, a, k)} :: IsVarKey(inst, k) ==> DcFlow(inst, a, k))
    && (forall i {:trigger SlackAngle(inst, a, i)} :: i in inst.subs ==> SlackAngle(inst, a, i))
    && (forall k {:trigger SlackNeg(inst, a, k)} {:trigger SlackPos(inst, a, k)} ::
          IsVarKey(inst, k) ==> SlackNeg(inst, a, k) && SlackPos(inst, a, k))
    && (forall k {:trigger CapacityNeg(inst, a, k)} {:trigger CapacityPos(inst, a, k)} ::
          IsVarKey(inst, k) ==> CapacityNeg(inst, a, k) && CapacityPos(inst, a, k))
    && Radial(inst, a)
    && (forall e {:trigger OneLinetype(inst, a, e.0, e.1)} :: e in inst.edges ==> OneLinetype(inst, a, e.0, e.1))
    && (forall c {:trigger CostRule(inst, a, c)} :: c in inst.costTypes ==> CostRule(inst, a, c))
  }
}
