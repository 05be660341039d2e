/** Network-wide power conservation: in every feasible assignment the
    demands of all nodes add up to the power the substations inject, since
    every edge flow enters the power balance of one end node with a plus
    sign and of the other with a minus sign. */
module Conservation {
  import opened GridTypes
  import opened EdgeIndexing
  import opened Constraints

  /** What edge {i, j} contributes to the power balance of i: the flow of
      (i, j) when i < j, minus the flow of (j, i) when j < i. */
  function EdgeTerm(inst: Instance, a: Assignment, i: NodeId, j: NodeId): real
    requires Indexed(inst) && Declared(inst, a)
    requires i in inst.Nodes() && j in inst.Nodes()
  {
    if i < j then LineFlow(inst, a, i, j, |inst.types|)
    else if j < i then -LineFlow(inst, a, j, i, |inst.types|)
    else 0.0
  }

  /** Sum of EdgeTerm(i, N[q]) over the first n nodes N[q]. */
  function RowSum(inst: Instance, a: Assignment, i: NodeId, n: nat): real
    requires Indexed(inst) && Declared(inst, a)
    requires i in inst.Nodes() && n <= |inst.Nodes()|
  {
    if n == 0 then 0.0
    else RowSum(inst, a, i, n - 1) + EdgeTerm(inst, a, i, inst.Nodes()[n - 1])
  }

  /** Sum of EdgeTerm(N[p], j) over the first m nodes N[p]. */
  function ColSum(inst: Instance, a: Assignment, j: NodeId, m: nat): real
    requires Indexed(inst) && Declared(inst, a)
    requires j in inst.Nodes() && m <= |inst.Nodes()|
  {
    if m == 0 then 0.0
    else ColSum(inst, a, j, m - 1) + EdgeTerm(inst, a, inst.Nodes()[m - 1], j)
  }

  /** Sum of the first m rows, each over the first n columns. */
  function Total(inst: Instance, a: Assignment, m: nat, n: nat): real
    requires Indexed(inst) && Declared(inst, a)
    requires m <= |inst.Nodes()| && n <= |inst.Nodes()|
  {
    if m == 0 then 0.0
    else Total(inst, a, m - 1, n) + RowSum(inst, a, inst.Nodes()[m - 1], n)
  }

  /** Sum of the first n columns, each over the first m rows. */
  function ColTotal(inst: Instance, a: Assignment, m: nat, n: nat): real
    requires Indexed(inst) && Declared(inst, a)
    requires m <= |inst.Nodes()| && n <= |inst.Nodes()|
  {
    if n == 0 then 0.0
    else ColTotal(inst, a, m, n - 1) + ColSum(inst, a, inst.Nodes()[n - 1], m)
  }

  /** The flow part of the power balance at i is the row sum of i. */
  lemma {:induction false} NetIsRowSum(inst: Instance, a: Assignment, i: NodeId, n: nat)
    requires Indexed(inst) && Declared(inst, a)
    requires i in inst.Nodes() && n <= |inst.Nodes()|
    ensures Outgoing(inst, a, i, n) - Incoming(inst, a, i, n) == RowSum(inst, a, i, n)
  {
    if n > 0 {
      NetIsRowSum(inst, a, i, n - 1);
    }
  }

  lemma {:induction false} ColTotalEmpty(inst: Instance, a: Assignment, n: nat)
    requires Indexed(inst) && Declared(inst, a) && n <= |inst.Nodes()|
    ensures ColTotal(inst, a, 0, n) == 0.0
  {
    if n > 0 {
      ColTotalEmpty(inst, a, n - 1);
    }
  }

  /** Adding row m - 1 to every column adds that row's sum. */
  lemma {:induction false} ColTotalStep(inst: Instance, a: Assignment, m: nat, n: nat)
    requires Indexed(inst) && Declared(inst, a)
    requires 0 < m <= |inst.Nodes()| && n <= |inst.Nodes()|
    ensures ColTotal(inst, a, m, n)
         == ColTotal(inst, a, m - 1, n) + RowSum(inst, a, inst.Nodes()[m - 1], n)
  {
    if n > 0 {
      ColTotalStep(inst, a, m, n - 1);
    }
  }

  /** Summing by rows or by columns gives the same total. */
  lemma {:induction false} SwapSums(inst: Instance, a: Assignment, m: nat, n: nat)
    requires Indexed(inst) && Declared(inst, a)
    requires m <= |inst.Nodes()| && n <= |inst.Nodes()|
    ensures Total(inst, a, m, n) == ColTotal(inst, a, m, n)
  {
    if m == 0 {
      ColTotalEmpty(inst, a, n);
    } else {
      SwapSums(inst, a, m - 1, n);
      ColTotalStep(inst, a, m, n);
    }
  }

  /** EdgeTerm is antisymmetric, so a column is the negated row. */
  lemma {:induction false} ColSumAntisym(inst: Instance, a: Assignment, j: NodeId, m: nat)
    requires Indexed(inst) && Declared(inst, a)
    requires j in inst.Nodes() && m <= |inst.Nodes()|
    ensures ColSum(inst, a, j, m) == -RowSum(inst, a, j, m)
  {
    if m > 0 {
      ColSumAntisym(inst, a, j, m - 1);
    }
  }

  lemma {:induction false} ColTotalNeg(inst: Instance, a: Assignment, m: nat, n: nat)
    requires Indexed(inst) && Declared(inst, a)
    requires m <= |inst.Nodes()| && n <= |inst.Nodes()|
    ensures ColTotal(inst, a, m, n) == -Total(inst, a, n, m)
  {
    if n > 0 {
      ColTotalNeg(inst, a, m, n - 1);
      ColSumAntisym(inst, a, inst.Nodes()[n - 1], m);
    }
  }

  /** Over all nodes the edge contributions cancel. */
  lemma FlowsCancel(inst: Instance, a: Assignment)
    requires Indexed(inst) && Declared(inst, a)
    ensures Total(inst, a, |inst.Nodes()|, |inst.Nodes()|) == 0.0
  {
    var n := |inst.Nodes()|;
    SwapSums(inst, a, n, n);
    ColTotalNeg(inst, a, n, n);
  }

  // ---------------------------------------------------------------------
  // Balance sums

  /** Demand of the first m nodes. */
  function DemandSum(inst: Instance, m: nat): real
    requires m <= |inst.Nodes()|
    requires forall i :: i in inst.Nodes() ==> i in inst.demand
  {
    if m == 0 then 0.0 else DemandSum(inst, m - 1) + inst.demand[inst.Nodes()[m - 1]]
  }

  /** Injection at the first m nodes. */
  function InjectionSum(inst: Instance, a: Assignment, m: nat): real
    requires Declared(inst, a) && m <= |inst.Nodes()|
  {
    if m == 0 then 0.0 else InjectionSum(inst, a, m - 1) + SubInjection(inst, a, inst.Nodes()[m - 1])
  }

  /** Power injected by the first m substations. */
  function SubstationSum(inst: Instance, a: Assignment, m: nat): real
    requires Declared(inst, a) && m <= |inst.subs|
  {
    if m == 0 then 0.0
    else
      var s := inst.subs[m - 1];
      assert s in inst.subs;
      SubstationSum(inst, a, m - 1) + a.powerSub[s]
  }

  /** Every node meets its power balance. */
  ghost predicate Balanced(inst: Instance, a: Assignment)
    requires Indexed(inst) && Declared(inst, a)
  {
    forall i {:trigger PowerBalance(inst, a, i)} :: i in inst.Nodes() ==> PowerBalance(inst, a, i)
  }

  /** Under the balance rules, the demand of a prefix of the nodes is its
      injection plus the flow part of its power balances. */
  lemma {:induction false} DemandIsInflow(inst: Instance, a: Assignment, m: nat)
    requires Indexed(inst) && Declared(inst, a) && m <= |inst.Nodes()|
    requires (forall i :: i in inst.Nodes() ==> i in inst.demand) && Balanced(inst, a)
    ensures DemandSum(inst, m)
         == InjectionSum(inst, a, m) + Total(inst, a, m, |inst.Nodes()|)
  {
    if m > 0 {
      DemandIsInflow(inst, a, m - 1);
      var i := inst.Nodes()[m - 1];
      assert PowerBalance(inst, a, i);
      NetIsRowSum(inst, a, i, |inst.Nodes()|);
    }
  }

  /** The injection summed over all nodes of a node list with no repeated id
      is the power of the substations. */
  lemma {:induction false} InjectionPrefix(inst: Instance, a: Assignment, m: nat)
    requires Declared(inst, a) && Distinct(inst.Nodes()) && m <= |inst.Nodes()|
    ensures m <= |inst.subs| ==> InjectionSum(inst, a, m) == SubstationSum(inst, a, m)
    ensures m > |inst.subs| ==> InjectionSum(inst, a, m) == SubstationSum(inst, a, |inst.subs|)
  {
    if m > 0 {
      InjectionPrefix(inst, a, m - 1);
      var N := inst.Nodes();
      if m > |inst.subs| {
        var i := N[m - 1];
        assert i == inst.consumers[m - 1 - |inst.subs|];
        forall p | 0 <= p < |inst.subs| ensures inst.subs[p] != i {
          assert N[p] == inst.subs[p];
        }
        assert i !in inst.subs;
      }
    }
  }

  /** Network-wide conservation: in a feasible assignment the total demand
      equals the total substation injection. */
  lemma PowerConservation(inst: Instance, a: Assignment)
    requires Feasible(inst, a) && Distinct(inst.Nodes())
    ensures DemandSum(inst, |inst.Nodes()|) == SubstationSum(inst, a, |inst.subs|)
  {
    BalancedConservation(inst, a);
  }

  /** The balance rules alone give conservation; the rest of Feasible is not
      needed, and leaving it out keeps the verifier's search small. */
  lemma BalancedConservation(inst: Instance, a: Assignment)
    requires Indexed(inst) && Declared(inst, a) && Distinct(inst.Nodes())
    requires (forall i :: i in inst.Nodes() ==> i in inst.demand) && Balanced(inst, a)
    ensures DemandSum(inst, |inst.Nodes()|) == SubstationSum(inst, a, |inst.subs|)
  {
    DemandIsInflow(inst, a, |inst.Nodes()|);
    FlowsCancel(inst, a);
    InjectionPrefix(inst, a, |inst.Nodes()|);
  }

  lemma {:induction false} SubstationSumNonnegative(inst: Instance, a: Assignment, m: nat)
    requires Declared(inst, a) && WithinDomains(a) && m <= |inst.subs|
    ensures SubstationSum(inst, a, m) >= 0.0
  {
    if m > 0 {
      SubstationSumNonnegative(inst, a, m - 1);
      var sub := inst.subs[m - 1];
      assert sub in inst.subs;
      assert sub in a.powerSub;
    }
  }

  /** Substations only inject power, so a feasible assignment needs a
      non-negative total demand. */
  lemma FeasibleDemandNonnegative(inst: Instance, a: Assignment)
    requires Feasible(inst, a) && Distinct(inst.Nodes())
    ensures DemandSum(inst, |inst.Nodes()|) >= 0.0
  {
    PowerConservation(inst, a);
    SubstationSumNonnegative(inst, a, |inst.subs|);
  }

  /** The sign convention of the power balance on the smallest network, one
      substation s and one consumer c: the flow variable of edge (min, max)
      counts power entering the lower-indexed node, so the consumer's demand
      is carried as a negative flow when s < c and as a positive flow when
      c < s, and the substation supplies both demands. */
  lemma TwoNodeFlows(inst: Instance, a: Assignment, s: NodeId, c: NodeId)
    requires Feasible(inst, a) && inst.subs == [s] && inst.consumers == [c] && s != c
    ensures s < c ==> LineFlow(inst, a, s, c, |inst.types|) == -inst.demand[c]
    ensures c < s ==> LineFlow(inst, a, c, s, |inst.types|) == inst.demand[c]
    ensures a.powerSub[s] == inst.demand[s] + inst.demand[c]
  {
    assert inst.Nodes() == [s, c];
    assert PowerBalance(inst, a, s) && PowerBalance(inst, a, c);
    assert Outgoing(inst, a, s, 1) == 0.0 && Incoming(inst, a, s, 1) == 0.0;
    assert Outgoing(inst, a, c, 1) == (if c < s then LineFlow(inst, a, c, s, |inst.types|) else 0.0);
    assert Incoming(inst, a, c, 1) == (if c > s then LineFlow(inst, a, s, c, |inst.types|) else 0.0);
    assert Outgoing(inst, a, c, 2) == Outgoing(inst, a, c, 1);
    assert Incoming(inst, a, c, 2) == Incoming(inst, a, c, 1);
  }
}
