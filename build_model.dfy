/** The model assembly: it stores the annuity factor on every cable type,
    derives the node lists, the edge index, the demand map and the flat
    length map from the raw inputs, declares the cost types, and generates
    the constraint families, which either succeeds or stops at the first
    lookup or arithmetic error. */
module BuildModel {
  import opened GridTypes
  import opened EdgeIndexing
  import opened Preprocess
  import opened Annuity
  import opened Costs
  import opened Constraints

  /** The instance the assembly builds from the node table, the nested
      length dictionary, the cable catalogue and the configuration. */
  function AssembledInstance(rows: seq<NodeRow>, nested: map<NodeId, map<NodeId, real>>,
                             types: seq<CableType>, cfg: Config): (inst: Instance)
    requires cfg.sBase > 0.0
    ensures Indexed(inst)
    ensures forall i :: i in inst.subs <==> HasKind(rows, i, PLANT)
    ensures forall i :: i in inst.consumers <==> HasKind(rows, i, CONSUMER)
    ensures forall i :: i in inst.demand <==> HasReading(rows, i)
  {
    var subs := IdsOfKind(rows, PLANT);
    var consumers := IdsOfKind(rows, CONSUMER);
    AssembledMembers(rows, cfg.sBase);
    Instance(subs, consumers, EdgeIndex(subs + consumers), FlatLengths(nested),
             DemandMap(rows, cfg.sBase), types, ACTIVE_COST_TYPES, cfg)
  }

  lemma AssembledMembers(rows: seq<NodeRow>, sBase: real)
    requires sBase > 0.0
    ensures forall i :: i in IdsOfKind(rows, PLANT) <==> HasKind(rows, i, PLANT)
    ensures forall i :: i in IdsOfKind(rows, CONSUMER) <==> HasKind(rows, i, CONSUMER)
    ensures forall i :: i in DemandMap(rows, sBase) <==> HasReading(rows, i)
  {
    forall i: NodeId
      ensures i in IdsOfKind(rows, PLANT) <==> HasKind(rows, i, PLANT)
      ensures i in IdsOfKind(rows, CONSUMER) <==> HasKind(rows, i, CONSUMER)
      ensures i in DemandMap(rows, sBase) <==> HasReading(rows, i)
    {
      IdsOfKindMembers(rows, PLANT, i);
      IdsOfKindMembers(rows, CONSUMER, i);
      DemandMapKeys(rows, sBase, i);
    }
  }

  /** The outcome of constraint generation on an instance. */
  function Formulated(inst: Instance): (r: Result<Instance>)
    ensures r.Success? <==> WellFormed(inst)
    ensures r.Success? ==> r.value == inst
  {
    match Formulate(inst)
    case Success(_) => Success(inst)
    case Failure(err) => Failure(err)
  }

  /** The model assembly. The annuity factor of a zero interest rate is
      undefined, and a non-empty catalogue then stops the assembly. */
  method Build(rows: seq<NodeRow>, nested: map<NodeId, map<NodeId, real>>,
               lineTech: array<CableType>, cfg: Config) returns (r: Result<Instance>)
    requires cfg.sBase > 0.0
    modifies lineTech
    ensures lineTech.Length > 0 && AnnuityFactor(DEPRECIATION_YEARS, cfg.interestRate).Failure? ==>
              r == Failure(AnnuityUndefined) && lineTech[..] == old(lineTech[..])
    ensures lineTech.Length == 0 || AnnuityFactor(DEPRECIATION_YEARS, cfg.interestRate).Success? ==>
              && (forall t :: 0 <= t < lineTech.Length ==>
                    lineTech[t] == old(lineTech[t]).(annuityFactor := AnnuityFactor(DEPRECIATION_YEARS, cfg.interestRate).value))
              && r == Formulated(AssembledInstance(rows, nested, lineTech[..], cfg))
  {
    var annuity := SetAnnuityFactors(lineTech, cfg.interestRate);
    if annuity.Failure? {
      return Failure(annuity.error);
    }
    var subs := IdsOfKind(rows, PLANT);
    var consumers := IdsOfKind(rows, CONSUMER);
    var edges := BuildEdgeIndex(subs + consumers);
    var demand := BuildDemand(rows, cfg.sBase);
    var lengths := FlattenLengths(nested);
    var inst := Instance(subs, consumers, edges, lengths, demand, lineTech[..], ACTIVE_COST_TYPES, cfg);
    assert inst == AssembledInstance(rows, nested, lineTech[..], cfg);
    var formulation := Formulate(inst);
    if formulation.Failure? {
      return Failure(formulation.error);
    }
    return Success(inst);
  }

  // ---------------------------------------------------------------------
  // Properties of the assembled instance

  /** With unique row ids the node list repeats no id, the edge index holds
      every unordered node pair once, and it has n (n - 1) / 2 entries. */
  lemma AssembledIndexSizes(rows: seq<NodeRow>, nested: map<NodeId, map<NodeId, real>>,
                            types: seq<CableType>, cfg: Config)
    requires cfg.sBase > 0.0 && DistinctIds(rows)
    ensures var inst := AssembledInstance(rows, nested, types, cfg);
            && Distinct(inst.Nodes())
            && Distinct(inst.edges)
            && 2 * |inst.edges| == |inst.Nodes()| * (|inst.Nodes()| - 1)
  {
    var inst := AssembledInstance(rows, nested, types, cfg);
    NodeListDistinct(rows);
    EdgeIndexDistinct(inst.Nodes());
    EdgeIndexSize(inst.Nodes());
  }

  /** A substation or consumer whose demand is NaN in every row for it stops
      the assembly at the power balance: with a missing demand entry, or,
      when the catalogue is empty, possibly at an earlier consumer whose
      balance holds no variable. */
  lemma NaNDemandStopsAssembly(rows: seq<NodeRow>, nested: map<NodeId, map<NodeId, real>>,
                               types: seq<CableType>, cfg: Config, k: nat)
    requires cfg.sBase > 0.0 && DistinctIds(rows)
    requires k < |rows| && (rows[k].kind == PLANT || rows[k].kind == CONSUMER)
    requires rows[k].gridKw.None?
    ensures var r := Formulated(AssembledInstance(rows, nested, types, cfg));
            r.Failure? && (r.error.NoDemand? || r.error.TrivialBalance?)
    ensures var r := Formulated(AssembledInstance(rows, nested, types, cfg));
            |types| > 0 ==> r.Failure? && r.error.NoDemand?
  {
    var inst := AssembledInstance(rows, nested, types, cfg);
    var id := rows[k].id;
    assert HasKind(rows, id, rows[k].kind);
    assert id in inst.Nodes();
    assert !HasReading(rows, id) by {
      forall p | 0 <= p < |rows| && rows[p].id == id ensures rows[p].gridKw.None? {
        assert p == k;
      }
    }
    MissingDemandFails(inst, id);
  }
}
