/** A concrete feasible design: substation 0 feeds consumer 1 over one
    cable. It shows that the rules can be met together and how the sign
    convention carries the consumer's demand as a negative flow on (0, 1). */
module Example {
  import opened GridTypes
  import opened EdgeIndexing
  import opened Costs
  import opened Constraints

  const SUB: NodeId := 0
  const CONS: NodeId := 1
  const KEY: VarKey := (SUB, CONS, 0)

  /** One substation, one consumer drawing 0.01 per unit, one cable type with
      reactance 1 ohm per km on a 1000 m edge and capacity 1 per unit. The
      instance is given directly rather than assembled: its stored annuity
      factor 1.0 is not the 40-year factor of the rate 0.06, and degToRad is
      0.01, so one unit of angle stands for 0.01 rad. */
  function TwoNodeInstance(): Instance {
    Instance(
      [SUB], [CONS], [(SUB, CONS)],
      map[(SUB, CONS) := 1000.0],
      map[SUB := 0.0, CONS := 0.01],
      [CableType(1.0, 1000.0, 1.0, 1.0, 0.1)],
      ACTIVE_COST_TYPES,
      Config(0.01, 1.0, 1.0, 0.06))
  }

  /** The edge is built, the consumer's angle leads by one unit, and the
      substation injects the consumer's demand. */
  function TwoNodeDesign(): Assignment {
    Assignment(
      map[KEY := 1],
      map[SUB := 0.0, CONS := 1.0],
      map[SUB := 0.01],
      map[KEY := -0.01],
      map[KEY := 0.0],
      map["investment" := 2000.0, "om" := 200.0])
  }

  lemma TwoNodeIndexed()
    ensures Indexed(TwoNodeInstance())
  {
    var nodes := TwoNodeInstance().Nodes();
    assert nodes == [SUB, CONS];
    assert nodes[..1] == [SUB];
    assert Row(SUB, [SUB]) == [];
    assert Row(SUB, [SUB, CONS]) == [(SUB, CONS)];
    assert Row(CONS, [SUB, CONS]) == [];
    assert Pairs([SUB], nodes) == [(SUB, CONS)];
  }

  lemma TwoNodeDeclared()
    ensures Declared(TwoNodeInstance(), TwoNodeDesign())
  {
  }

  /** The only flow on the edge is the one of its single cable type. */
  lemma TwoNodeLineFlow(inst: Instance, a: Assignment)
    requires inst == TwoNodeInstance() && a == TwoNodeDesign()
    requires Indexed(inst) && Declared(inst, a)
    ensures inst.Nodes() == [SUB, CONS]
    ensures LineFlow(inst, a, SUB, CONS, |inst.types|) == -0.01
  {
    assert LineFlow(inst, a, SUB, CONS, 0) == 0.0;
  }

  lemma TwoNodeSubBalance(inst: Instance, a: Assignment)
    requires inst == TwoNodeInstance() && a == TwoNodeDesign()
    requires Indexed(inst) && Declared(inst, a)
    requires inst.Nodes() == [SUB, CONS]
    requires LineFlow(inst, a, SUB, CONS, |inst.types|) == -0.01
    ensures PowerBalance(inst, a, SUB)
  {
    assert Outgoing(inst, a, SUB, 1) == 0.0;
    assert Outgoing(inst, a, SUB, 2) == -0.01;
    assert Incoming(inst, a, SUB, 1) == 0.0;
    assert Incoming(inst, a, SUB, 2) == 0.0;
  }

  lemma TwoNodeConsBalance(inst: Instance, a: Assignment)
    requires inst == TwoNodeInstance() && a == TwoNodeDesign()
    requires Indexed(inst) && Declared(inst, a)
    requires inst.Nodes() == [SUB, CONS]
    requires LineFlow(inst, a, SUB, CONS, |inst.types|) == -0.01
    ensures PowerBalance(inst, a, CONS)
  {
    assert Outgoing(inst, a, CONS, 1) == 0.0;
    assert Outgoing(inst, a, CONS, 2) == 0.0;
    assert Incoming(inst, a, CONS, 1) == -0.01;
    assert Incoming(inst, a, CONS, 2) == -0.01;
  }

  lemma TwoNodeBalance(inst: Instance, a: Assignment)
    requires inst == TwoNodeInstance() && a == TwoNodeDesign()
    requires Indexed(inst) && Declared(inst, a)
    ensures forall i :: i in inst.Nodes() ==> PowerBalance(inst, a, i)
  {
    TwoNodeLineFlow(inst, a);
    TwoNodeSubBalance(inst, a);
    TwoNodeConsBalance(inst, a);
  }

  /** The design's only variable key is KEY. */
  lemma TwoNodeKeys(inst: Instance, k: VarKey)
    requires inst == TwoNodeInstance() && Indexed(inst) && IsVarKey(inst, k)
    ensures k == KEY
  {
  }

  lemma TwoNodeLinesKnown(inst: Instance)
    requires inst == TwoNodeInstance()
    ensures LinesKnown(inst)
  {
    assert Reactance(inst, (SUB, CONS), 0) == 1.0;
  }

  lemma TwoNodeDcFlow(inst: Instance, a: Assignment)
    requires inst == TwoNodeInstance() && a == TwoNodeDesign()
    requires Indexed(inst) && Declared(inst, a) && LinesKnown(inst) && IsVarKey(inst, KEY)
    ensures DcFlow(inst, a, KEY)
  {
    TwoNodeReactance(inst);
    TwoNodeAngle(inst, a);
    DcFlowOfAngle(inst, a, KEY, -0.01);
  }

  lemma TwoNodeReactance(inst: Instance)
    requires inst == TwoNodeInstance()
    ensures (SUB, CONS) in inst.lengths && |inst.types| == 1
    ensures Reactance(inst, (SUB, CONS), 0) == 1.0
  {
  }

  lemma TwoNodeAngle(inst: Instance, a: Assignment)
    requires inst == TwoNodeInstance() && a == TwoNodeDesign()
    requires Indexed(inst) && Declared(inst, a) && LinesKnown(inst) && IsVarKey(inst, KEY)
    requires Reactance(inst, (SUB, CONS), 0) == 1.0
    ensures AngleFlow(inst, a, KEY) == -0.01
  {
    assert a.theta[SUB] == 0.0 && a.theta[CONS] == 1.0 && inst.cfg.degToRad == 0.01;
  }

  /** DcFlow holds once the flow is the angle term v plus the slack. */
  lemma DcFlowOfAngle(inst: Instance, a: Assignment, k: VarKey, v: real)
    requires Indexed(inst) && Declared(inst, a) && LinesKnown(inst) && IsVarKey(inst, k)
    requires v == AngleFlow(inst, a, k) && a.flow[k] == v + a.slack[k]
    ensures DcFlow(inst, a, k)
  {
  }

  lemma TwoNodeBounds(inst: Instance, a: Assignment)
    requires inst == TwoNodeInstance() && a == TwoNodeDesign()
    requires Declared(inst, a) && IsVarKey(inst, KEY)
    ensures SlackNeg(inst, a, KEY) && SlackPos(inst, a, KEY)
    ensures CapacityNeg(inst, a, KEY) && CapacityPos(inst, a, KEY)
  {
  }

  lemma TwoNodeEdgeRules(inst: Instance, a: Assignment)
    requires inst == TwoNodeInstance() && a == TwoNodeDesign()
    requires Indexed(inst) && Declared(inst, a)
    ensures LinesKnown(inst)
    ensures forall k :: IsVarKey(inst, k) ==> DcFlow(inst, a, k)
    ensures forall k :: IsVarKey(inst, k) ==> SlackNeg(inst, a, k) && SlackPos(inst, a, k)
    ensures forall k :: IsVarKey(inst, k) ==> CapacityNeg(inst, a, k) && CapacityPos(inst, a, k)
  {
    assert IsVarKey(inst, KEY);
    TwoNodeLinesKnown(inst);
    TwoNodeDcFlow(inst, a);
    TwoNodeBounds(inst, a);
    forall k | IsVarKey(inst, k) ensures k == KEY {
      TwoNodeKeys(inst, k);
    }
  }

  lemma TwoNodeCounts(inst: Instance, a: Assignment)
    requires inst == TwoNodeInstance() && a == TwoNodeDesign()
    requires Declared(inst, a)
    ensures Radial(inst, a)
    ensures forall e :: e in inst.edges ==> OneLinetype(inst, a, e.0, e.1)
  {
    assert TypeCount(inst, a, SUB, CONS, 1) == 1;
    assert BuiltUpTo(inst, a, 1) == 1;
  }

  lemma TwoNodeCosts(inst: Instance, a: Assignment)
    requires inst == TwoNodeInstance() && a == TwoNodeDesign()
    requires Declared(inst, a) && LengthsKnown(inst)
    ensures forall c :: c in inst.costTypes ==> CostRule(inst, a, c)
  {
    assert LineCost(inst, a, SUB, CONS, 1) == 2000.0;
    assert InvestmentSum(inst, a) == 2000.0;
  }

  lemma TwoNodeWellFormed(inst: Instance)
    requires inst == TwoNodeInstance()
    ensures WellFormed(inst)
  {
    TwoNodeLinesKnown(inst);
    assert inst.Nodes() == [SUB, CONS];
    assert TouchesVariable(inst, CONS) by {
      assert SUB in inst.Nodes() && SUB != CONS;
    }
  }

  lemma TwoNodeDomains(inst: Instance, a: Assignment)
    requires inst == TwoNodeInstance() && a == TwoNodeDesign() && Declared(inst, a)
    ensures inst.cfg.Valid() && WithinDomains(a)
    ensures forall i :: i in inst.subs ==> SlackAngle(inst, a, i)
  {
  }

  /** The two-node design satisfies every rule of the model. */
  lemma TwoNodeFeasible()
    ensures Feasible(TwoNodeInstance(), TwoNodeDesign())
  {
    var inst := TwoNodeInstance();
    var a := TwoNodeDesign();
    TwoNodeIndexed();
    TwoNodeDeclared();
    TwoNodeBalance(inst, a);
    TwoNodeEdgeRules(inst, a);
    TwoNodeCounts(inst, a);
    TwoNodeCosts(inst, a);
    TwoNodeWellFormed(inst);
    TwoNodeDomains(inst, a);
    FeasibleOfRules(inst, a);
  }

  lemma FeasibleOfRules(inst: Instance, a: Assignment)
    requires inst.cfg.Valid() && Indexed(inst) && WellFormed(inst) && Declared(inst, a) && WithinDomains(a)
    requires forall i :: i in inst.Nodes() ==> PowerBalance(inst, a, i)
    requires forall k :: IsVarKey(inst, k) ==> DcFlow(inst, a, k)
    requires forall i :: i in inst.subs ==> SlackAngle(inst, a, i)
    requires forall k :: IsVarKey(inst, k) ==> SlackNeg(inst, a, k) && SlackPos(inst, a, k)
    requires forall k :: IsVarKey(inst, k) ==> CapacityNeg(inst, a, k) && CapacityPos(inst, a, k)
    requires Radial(inst, a)
    requires forall e :: e in inst.edges ==> OneLinetype(inst, a, e.0, e.1)
    requires forall c :: c in inst.costTypes ==> CostRule(inst, a, c)
    ensures Feasible(inst, a)
  {
  }

  // ---------------------------------------------------------------------
  // Degenerate instances whose rules hold no variable

  /** A lone substation has no edge, so the radial rule sums an empty x. */
  lemma LoneSubstationFails()
    ensures Formulate(Instance([7], [], [], map[], map[7 := 0.0],
                               TwoNodeInstance().types, ACTIVE_COST_TYPES,
                               TwoNodeInstance().cfg)) == Failure(TrivialRadial)
  {
    var inst := Instance([7], [], [], map[], map[7 := 0.0],
                         TwoNodeInstance().types, ACTIVE_COST_TYPES, TwoNodeInstance().cfg);
    assert inst.Nodes() == [7];
    assert TouchesVariable(inst, 7);
  }

  /** Without cable types the consumer's balance holds no variable, and it
      is generated before the radial rule. */
  lemma EmptyCatalogueFails()
    ensures Formulate(TwoNodeInstance().(types := [])) == Failure(TrivialBalance(CONS))
  {
    var inst := TwoNodeInstance().(types := []);
    assert inst.Nodes() == [SUB, CONS];
    assert TouchesVariable(inst, SUB);
    assert BalanceError(inst, 1).None?;
  }
}
