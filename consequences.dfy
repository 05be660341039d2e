/** What every feasible assignment satisfies: built edges obey the DC
    equation exactly, unbuilt edges carry no flow, each edge uses at most one
    cable type, the built edges number the consumers, and the cost variables
    take the values of the investment, O&M and objective identities. */
module Consequences {
  import opened GridTypes
  import opened EdgeIndexing
  import opened Annuity
  import opened Costs
  import opened Constraints

  // Each lemma that requires Feasible names the one rule it uses (an
  // `assert` of that rule's predicate). Where arithmetic follows, it is
  // done in a helper lemma whose requires hold only that rule, because the
  // verifier's search over the whole of Feasible is much more expensive.

  // ---------------------------------------------------------------------
  // Flow and slack of one edge and cable type

  /** A built edge has zero slack, so its flow is exactly the DC angle term. */
  lemma BuiltEdgeHasNoSlack(inst: Instance, a: Assignment, k: VarKey)
    requires Feasible(inst, a) && IsVarKey(inst, k) && a.x[k] == 1
    ensures a.slack[k] == 0.0
    ensures a.flow[k] == AngleFlow(inst, a, k)
  {
    assert SlackNeg(inst, a, k) && SlackPos(inst, a, k);
    assert DcFlow(inst, a, k);
  }

  /** An unbuilt edge carries no flow. */
  lemma UnbuiltEdgeCarriesNoFlow(inst: Instance, a: Assignment, k: VarKey)
    requires Feasible(inst, a) && IsVarKey(inst, k) && a.x[k] == 0
    ensures a.flow[k] == 0.0
  {
    assert CapacityNeg(inst, a, k) && CapacityPos(inst, a, k);
    CapacityOfUnbuilt(inst, a, k);
  }

  /** The arithmetic of UnbuiltEdgeCarriesNoFlow, with only the capacity rules in scope. */
  lemma CapacityOfUnbuilt(inst: Instance, a: Assignment, k: VarKey)
    requires inst.cfg.Valid() && Declared(inst, a) && IsVarKey(inst, k) && a.x[k] == 0
    requires CapacityNeg(inst, a, k) && CapacityPos(inst, a, k)
    ensures a.flow[k] == 0.0
  {
    assert (a.x[k] as real) * CapacityLimit(inst, k.2) == 0.0;
  }

  /** The arithmetic of BuiltEdgeWithinCapacity, with only the capacity rules in scope. */
  lemma CapacityOfBuilt(inst: Instance, a: Assignment, k: VarKey)
    requires inst.cfg.Valid() && Declared(inst, a) && IsVarKey(inst, k) && a.x[k] == 1
    requires CapacityNeg(inst, a, k) && CapacityPos(inst, a, k)
    ensures -CapacityLimit(inst, k.2) <= a.flow[k] <= CapacityLimit(inst, k.2)
  {
    assert (a.x[k] as real) * CapacityLimit(inst, k.2) == CapacityLimit(inst, k.2);
  }

  /** A built edge carries at most the cable's per-unit capacity either way. */
  lemma BuiltEdgeWithinCapacity(inst: Instance, a: Assignment, k: VarKey)
    requires Feasible(inst, a) && IsVarKey(inst, k) && a.x[k] == 1
    ensures -CapacityLimit(inst, k.2) <= a.flow[k] <= CapacityLimit(inst, k.2)
  {
    assert CapacityNeg(inst, a, k) && CapacityPos(inst, a, k);
    CapacityOfBuilt(inst, a, k);
  }

  /** The slack never exceeds the big-M constant in magnitude. */
  lemma SlackWithinBigM(inst: Instance, a: Assignment, k: VarKey)
    requires Feasible(inst, a) && IsVarKey(inst, k)
    ensures -BIG_M <= a.slack[k] <= BIG_M
    ensures a.x[k] == 0 || a.slack[k] == 0.0
  {
    assert SlackNeg(inst, a, k) && SlackPos(inst, a, k);
    assert a.x[k] <= 1;
    SlackBounds(inst, a, k);
  }

  /** The arithmetic of SlackWithinBigM, with only the slack rules in scope. */
  lemma SlackBounds(inst: Instance, a: Assignment, k: VarKey)
    requires Declared(inst, a) && IsVarKey(inst, k) && a.x[k] <= 1
    requires SlackNeg(inst, a, k) && SlackPos(inst, a, k)
    ensures -BIG_M <= a.slack[k] <= BIG_M
    ensures a.x[k] == 0 || a.slack[k] == 0.0
  {
  }

  /** The angle of every substation is the reference angle 0. */
  lemma SubstationAngleIsReference(inst: Instance, a: Assignment, i: NodeId)
    requires Feasible(inst, a) && i in inst.subs
    ensures a.theta[i] == 0.0
  {
    assert SlackAngle(inst, a, i);
  }

  // ---------------------------------------------------------------------
  // Cable types per edge

  /** Type t < u of a built edge is counted. */
  lemma {:induction false} TypeCountCounts(inst: Instance, a: Assignment, i: NodeId, j: NodeId, u: nat, t: nat, t': nat)
    requires Declared(inst, a) && (i, j) in inst.edges && u <= |inst.types|
    requires t < u && t' < u
    ensures TypeCount(inst, a, i, j, u) >= a.x[(i, j, t)]
    ensures t != t' ==> TypeCount(inst, a, i, j, u) >= a.x[(i, j, t)] + a.x[(i, j, t')]
  {
    if t < u - 1 && t' < u - 1 {
      TypeCountCounts(inst, a, i, j, u - 1, t, t');
    } else if t < u - 1 {
      TypeCountCounts(inst, a, i, j, u - 1, t, t);
    } else if t' < u - 1 {
      TypeCountCounts(inst, a, i, j, u - 1, t', t');
    }
  }

  /** Each edge uses at most one cable type. */
  lemma OneTypePerEdge(inst: Instance, a: Assignment, k: VarKey, k': VarKey)
    requires Feasible(inst, a) && IsVarKey(inst, k) && IsVarKey(inst, k')
    requires k.0 == k'.0 && k.1 == k'.1
    requires a.x[k] == 1 && a.x[k'] == 1
    ensures k.2 == k'.2
  {
    assert OneLinetype(inst, a, k.0, k.1);
    AtMostOneType(inst, a, k.0, k.1, k.2, k'.2);
  }

  /** The counting step of OneTypePerEdge, with only the one-cable-type rule in scope. */
  lemma AtMostOneType(inst: Instance, a: Assignment, i: NodeId, j: NodeId, t: nat, t': nat)
    requires Declared(inst, a) && (i, j) in inst.edges && OneLinetype(inst, a, i, j)
    requires t < |inst.types| && t' < |inst.types|
    requires a.x[(i, j, t)] == 1 && a.x[(i, j, t')] == 1
    ensures t == t'
  {
    TypeCountCounts(inst, a, i, j, |inst.types|, t, t');
  }

  /** A built edge is one whose cable-type count is positive. */
  predicate Built(inst: Instance, a: Assignment, e: Edge)
    requires Declared(inst, a) && e in inst.edges
  {
    TypeCount(inst, a, e.0, e.1, |inst.types|) > 0
  }

  /** Number of built edges among the first m edges. */
  function CountBuilt(inst: Instance, a: Assignment, m: nat): nat
    requires Declared(inst, a) && m <= |inst.edges|
  {
    if m == 0 then 0
    else CountBuilt(inst, a, m - 1) + (if Built(inst, a, inst.edges[m - 1]) then 1 else 0)
  }

  lemma {:induction false} BuiltUpToCounts(inst: Instance, a: Assignment, m: nat)
    requires Feasible(inst, a) && m <= |inst.edges|
    ensures BuiltUpTo(inst, a, m) == CountBuilt(inst, a, m)
  {
    if m > 0 {
      BuiltUpToCounts(inst, a, m - 1);
      var e := inst.edges[m - 1];
      assert OneLinetype(inst, a, e.0, e.1);
    }
  }

  /** The built edges among the first m edges, as a set. */
  function BuiltSet(inst: Instance, a: Assignment, m: nat): set<Edge>
    requires Declared(inst, a) && m <= |inst.edges|
  {
    if m == 0 then {}
    else
      var e := inst.edges[m - 1];
      BuiltSet(inst, a, m - 1) + (if Built(inst, a, e) then {e} else {})
  }

  /** An edge is in the set exactly when it is one of the first m edges and built. */
  lemma {:induction false} BuiltSetMembers(inst: Instance, a: Assignment, m: nat, e: Edge)
    requires Declared(inst, a) && m <= |inst.edges|
    ensures e in BuiltSet(inst, a, m) <==> e in inst.edges[..m] && Built(inst, a, e)
  {
    if m > 0 {
      BuiltSetMembers(inst, a, m - 1, e);
      assert inst.edges[..m] == inst.edges[..m - 1] + [inst.edges[m - 1]];
    }
  }

  /** With distinct edges, an edge is not among the built edges before it. */
  lemma LastIsFresh(inst: Instance, a: Assignment, m: nat)
    requires Declared(inst, a) && Distinct(inst.edges) && 0 < m <= |inst.edges|
    ensures inst.edges[m - 1] !in BuiltSet(inst, a, m - 1)
  {
    var e := inst.edges[m - 1];
    BuiltSetMembers(inst, a, m - 1, e);
    var before := inst.edges[..m - 1];
    forall p | 0 <= p < |before| ensures before[p] != e {
      assert before[p] == inst.edges[p];
    }
  }

  lemma {:induction false} BuiltSetSize(inst: Instance, a: Assignment, m: nat)
    requires Declared(inst, a) && Distinct(inst.edges) && m <= |inst.edges|
    ensures |BuiltSet(inst, a, m)| == CountBuilt(inst, a, m)
  {
    if m > 0 {
      BuiltSetSize(inst, a, m - 1);
      LastIsFresh(inst, a, m);
    }
  }

  /** The radial rule makes the built edges number nodes minus substations,
      that is one per consumer; with no repeated node id they are as many
      distinct edges. */
  lemma BuiltEdgeCount(inst: Instance, a: Assignment)
    requires Feasible(inst, a)
    ensures CountBuilt(inst, a, |inst.edges|) == |inst.consumers|
    ensures Distinct(inst.Nodes()) ==>
              |BuiltSet(inst, a, |inst.edges|)| == |inst.consumers|
  {
    BuiltUpToCounts(inst, a, |inst.edges|);
    if Distinct(inst.Nodes()) {
      EdgeIndexDistinct(inst.Nodes());
      BuiltSetSize(inst, a, |inst.edges|);
    }
  }

  // ---------------------------------------------------------------------
  // Costs

  /** With nothing built the investment cost variable is zero. */
  lemma NothingBuiltNoInvestment(inst: Instance, a: Assignment)
    requires Feasible(inst, a) && "investment" in inst.costTypes
    requires forall k :: k in a.x ==> a.x[k] == 0
    ensures a.costs["investment"] == 0.0
  {
    assert CostRule(inst, a, "investment");
    NothingBuiltCostsNothing(inst, a, |inst.edges|);
  }

  /** The O&M cost is the investment times the O&M factor of cable type 0. */
  lemma OmIsInvestmentShare(inst: Instance, a: Assignment)
    requires Feasible(inst, a) && "om" in inst.costTypes
    ensures a.costs["om"] == a.costs["investment"] * inst.types[0].omFactor
  {
    assert CostRule(inst, a, "om");
    OmRule(inst, a);
  }

  /** The step of OmIsInvestmentShare with only the O&M rule in scope; in
      the context of Feasible the same step exceeds the verifier's resource budget. */
  lemma OmRule(inst: Instance, a: Assignment)
    requires Declared(inst, a) && LengthsKnown(inst) && OmInputsPresent(inst)
    requires "om" in inst.costTypes && CostRule(inst, a, "om")
    ensures a.costs["om"] == a.costs["investment"] * inst.types[0].omFactor
  {
  }

  /** A cost type other than investment, om or losses stops the formulation,
      and then no assignment satisfies the model. */
  lemma UnknownCostTypeFails(inst: Instance, a: Assignment, name: string)
    requires name in inst.costTypes && ParseCostType(name).Failure?
    ensures Formulate(inst).Failure?
    ensures !Feasible(inst, a)
  {
  }

  /** With the assembly's cost types, the objective is the investment times
      one plus the O&M factor of cable type 0. */
  lemma ObjectiveValue(inst: Instance, a: Assignment)
    requires Feasible(inst, a) && inst.costTypes == ACTIVE_COST_TYPES
    ensures Objective(inst, a, |inst.costTypes|)
         == InvestmentSum(inst, a) * (1.0 + inst.types[0].omFactor)
  {
    assert inst.costTypes[0] == "investment" && inst.costTypes[1] == "om";
    assert CostRule(inst, a, "investment");
    assert CostRule(inst, a, "om");
    ActiveObjective(inst, a);
  }

  /** The arithmetic of ObjectiveValue, with only the two cost rules in scope. */
  lemma ActiveObjective(inst: Instance, a: Assignment)
    requires Declared(inst, a) && LengthsKnown(inst) && OmInputsPresent(inst)
    requires inst.costTypes == ACTIVE_COST_TYPES
    requires CostRule(inst, a, "investment") && CostRule(inst, a, "om")
    ensures Objective(inst, a, |inst.costTypes|)
         == InvestmentSum(inst, a) * (1.0 + inst.types[0].omFactor)
  {
    var c := InvestmentSum(inst, a);
    var f := inst.types[0].omFactor;
    assert a.costs["investment"] == c;
    assert a.costs["om"] == c * f;
    assert Objective(inst, a, 1) == c;
    assert Objective(inst, a, 2) == c + c * f;
    assert c + c * f == c * (1.0 + f);
  }

  /** With non-negative prices, lengths and annuity factors and a
      non-negative O&M factor, the objective of the assembly's cost types is
      never negative. */
  lemma ObjectiveNonnegative(inst: Instance, a: Assignment)
    requires Feasible(inst, a) && inst.costTypes == ACTIVE_COST_TYPES
    requires NonnegativeCostData(inst) && inst.types[0].omFactor >= 0.0
    ensures Objective(inst, a, |inst.costTypes|) >= 0.0
  {
    ObjectiveValue(inst, a);
    NonnegativeObjectiveOf(inst, a);
  }

  /** The arithmetic of ObjectiveNonnegative, with only the cost rules in scope. */
  lemma NonnegativeObjectiveOf(inst: Instance, a: Assignment)
    requires Declared(inst, a) && LengthsKnown(inst) && NonnegativeCostData(inst)
    requires |inst.types| > 0 && inst.types[0].omFactor >= 0.0
    requires Objective(inst, a, |inst.costTypes|)
          == InvestmentSum(inst, a) * (1.0 + inst.types[0].omFactor)
    ensures Objective(inst, a, |inst.costTypes|) >= 0.0
  {
    InvestmentNonnegative(inst, a, |inst.edges|);
    MulNonneg(InvestmentSum(inst, a), 1.0 + inst.types[0].omFactor);
  }
}
