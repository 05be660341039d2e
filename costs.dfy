/** The cost rules of the objective: cost-type dispatch, the investment
    sum over every edge and cable type, the O&M identity and the objective
    as the unweighted sum of the cost variables. */
module Costs {
  import opened GridTypes

  datatype CostType = Investment | Om | Losses

  /** The name under which a cost type is declared. */
  function CostTypeName(c: CostType): string {
    match c
    case Investment => "investment"
    case Om => "om"
    case Losses => "losses"
  }

  /** The dispatch of the cost rule on the cost-type name; any other name
      is an unknown cost type. */
  function ParseCostType(name: string): (r: Result<CostType>)
    ensures r.Success? ==> CostTypeName(r.value) == name
    ensures r.Failure? ==> r.error == UnknownCostType(name)
  {
    if name == "investment" then Success(Investment)
    else if name == "om" then Success(Om)
    else if name == "losses" then Success(Losses)
    else Failure(UnknownCostType(name))
  }

  /** Parsing inverts naming. */
  lemma ParseCostTypeName(c: CostType)
    ensures ParseCostType(CostTypeName(c)) == Success(c)
  {
  }

  /** The cost types the model assembly declares (losses is switched off). */
  const ACTIVE_COST_TYPES: seq<string> := ["investment", "om"]

  /** Every edge has a length whenever some cable type could be priced on it. */
  predicate LengthsKnown(inst: Instance) {
    |inst.types| > 0 ==> forall e :: e in inst.edges ==> e in inst.lengths
  }

  /** Investment of edge (i, j) over the cable types 0 .. u - 1. */
  function LineCost(inst: Instance, a: Assignment, i: NodeId, j: NodeId, u: nat): real
    requires Declared(inst, a) && LengthsKnown(inst)
    requires (i, j) in inst.edges && u <= |inst.types|
  {
    if u == 0 then 0.0
    else
      var t := u - 1;
      LineCost(inst, a, i, j, t)
        + 2.0 * ((a.x[(i, j, t)] as real) * inst.lengths[(i, j)])
          * inst.types[t].priceSgdPerM * inst.types[t].annuityFactor
  }

  /** Investment of the first m edges of the edge set. */
  function InvestmentUpTo(inst: Instance, a: Assignment, m: nat): real
    requires Declared(inst, a) && LengthsKnown(inst) && m <= |inst.edges|
  {
    if m == 0 then 0.0
    else
      var e := inst.edges[m - 1];
      InvestmentUpTo(inst, a, m - 1) + LineCost(inst, a, e.0, e.1, |inst.types|)
  }

  /** Sum over all edges and cable types of 2 * x * length * price * annuity. */
  function InvestmentSum(inst: Instance, a: Assignment): real
    requires Declared(inst, a) && LengthsKnown(inst)
  {
    InvestmentUpTo(inst, a, |inst.edges|)
  }

  /** The accumulation loop of the investment cost rule. */
  method InvestmentCost(inst: Instance, a: Assignment) returns (cInv: real)
    requires Declared(inst, a) && LengthsKnown(inst)
    ensures cInv == InvestmentSum(inst, a)
  {
    cInv := 0.0;
    for m := 0 to |inst.edges|
      invariant cInv == InvestmentUpTo(inst, a, m)
    {
      var (i, j) := inst.edges[m];
      for t := 0 to |inst.types|
        invariant cInv == InvestmentUpTo(inst, a, m) + LineCost(inst, a, i, j, t)
      {
        cInv := cInv + 2.0 * ((a.x[(i, j, t)] as real) * inst.lengths[(i, j)])
                         * inst.types[t].priceSgdPerM * inst.types[t].annuityFactor;
      }
    }
  }

  // ---------------------------------------------------------------------
  // Properties of the investment sum

  lemma {:induction false} LineCostZero(inst: Instance, a: Assignment, i: NodeId, j: NodeId, u: nat)
    requires Declared(inst, a) && LengthsKnown(inst)
    requires (i, j) in inst.edges && u <= |inst.types|
    requires forall t :: 0 <= t < u ==> a.x[(i, j, t)] == 0
    ensures LineCost(inst, a, i, j, u) == 0.0
  {
    if u > 0 {
      LineCostZero(inst, a, i, j, u - 1);
    }
  }

  /** When no edge is built, the investment is zero. */
  lemma {:induction false} NothingBuiltCostsNothing(inst: Instance, a: Assignment, m: nat)
    requires Declared(inst, a) && LengthsKnown(inst) && m <= |inst.edges|
    requires forall k :: k in a.x ==> a.x[k] == 0
    ensures InvestmentUpTo(inst, a, m) == 0.0
  {
    if m > 0 {
      NothingBuiltCostsNothing(inst, a, m - 1);
      var e := inst.edges[m - 1];
      LineCostZero(inst, a, e.0, e.1, |inst.types|);
    }
  }

  /** Non-negative lengths, prices and annuity factors. */
  predicate NonnegativeCostData(inst: Instance) {
    && (forall e :: e in inst.lengths ==> inst.lengths[e] >= 0.0)
    && (forall t :: 0 <= t < |inst.types| ==>
          inst.types[t].priceSgdPerM >= 0.0 && inst.types[t].annuityFactor >= 0.0)
  }

  lemma ProductNonneg(x: real, l: real, p: real, f: real)
    requires x >= 0.0 && l >= 0.0 && p >= 0.0 && f >= 0.0
    ensures 2.0 * (x * l) * p * f >= 0.0
  {
    assert x * l >= 0.0;
    assert 2.0 * (x * l) >= 0.0;
    assert 2.0 * (x * l) * p >= 0.0;
  }

  lemma {:induction false} LineCostNonneg(inst: Instance, a: Assignment, i: NodeId, j: NodeId, u: nat)
    requires Declared(inst, a) && LengthsKnown(inst) && NonnegativeCostData(inst)
    requires (i, j) in inst.edges && u <= |inst.types|
    ensures LineCost(inst, a, i, j, u) >= 0.0
  {
    if u > 0 {
      var t := u - 1;
      LineCostNonneg(inst, a, i, j, t);
      ProductNonneg(a.x[(i, j, t)] as real, inst.lengths[(i, j)],
                    inst.types[t].priceSgdPerM, inst.types[t].annuityFactor);
    }
  }

  /** With non-negative cost data the investment is never negative. */
  lemma {:induction false} InvestmentNonnegative(inst: Instance, a: Assignment, m: nat)
    requires Declared(inst, a) && LengthsKnown(inst) && NonnegativeCostData(inst)
    requires m <= |inst.edges|
    ensures InvestmentUpTo(inst, a, m) >= 0.0
  {
    if m > 0 {
      InvestmentNonnegative(inst, a, m - 1);
      var e := inst.edges[m - 1];
      LineCostNonneg(inst, a, e.0, e.1, |inst.types|);
    }
  }

  // ---------------------------------------------------------------------
  // Cost rules and objective

  /** What the O&M rule reads besides its own variable. */
  predicate OmInputsPresent(inst: Instance) {
    "om" in inst.costTypes ==> "investment" in inst.costTypes && |inst.types| > 0
  }

  /** The cost rule for one declared cost type. The loss rule is not part of
      this model and places no constraint. */
  ghost predicate CostRule(inst: Instance, a: Assignment, name: string)
    requires Declared(inst, a) && LengthsKnown(inst) && OmInputsPresent(inst)
    requires name in inst.costTypes
  {
    match ParseCostType(name)
    case Failure(_) => false
    case Success(Investment) => a.costs["investment"] == InvestmentSum(inst, a)
    case Success(Om) => a.costs["om"] == a.costs["investment"] * inst.types[0].omFactor
    case Success(Losses) => true
  }

  /** The objective: the sum of the cost variables over the first m cost types. */
  function Objective(inst: Instance, a: Assignment, m: nat): real
    requires Declared(inst, a) && m <= |inst.costTypes|
  {
    if m == 0 then 0.0
    else Objective(inst, a, m - 1) + a.costs[inst.costTypes[m - 1]]
  }
}
