/** Vocabulary of the radial network-design formulation: the problem
    instance (nodes, candidate edges, lengths, demands, cable catalogue),
    an assignment to the decision and state variables, and the errors
    raised while the constraint families are generated. */
module GridTypes {

  type NodeId = int

  /** A candidate edge (i, j); the edge index only ever holds i < j. */
  type Edge = (NodeId, NodeId)

  /** Index (i, j, t) of a per-edge, per-cable-type variable. */
  type VarKey = (NodeId, NodeId, int)

  datatype Option<T> = None | Some(value: T)

  /** What stops the formulation before any solve attempt. */
  datatype FormulationError =
    | NoDemand(node: NodeId)                 // power balance looks up a missing demand entry
    | TrivialBalance(node: NodeId)           // the balance at a node touching no variable is a plain bool
    | NoLength(edge: Edge)                   // DC flow looks up a missing edge length
    | ZeroReactance(edge: Edge, lineType: nat) // DC flow divides by a zero line reactance
    | TrivialRadial                          // the radial rule sums an empty x, leaving a plain bool
    | NoInvestmentCost                       // the O&M rule reads a cost variable that is not declared
    | NoLineType0                            // the O&M rule reads cable type 0 of an empty catalogue
    | UnknownCostType(name: string)          // a cost type other than investment, om or losses
    | AnnuityUndefined                       // (1 + i)^n - 1 == 0 in the annuity factor

  datatype Result<T> = Success(value: T) | Failure(error: FormulationError)

  /** Big-M of the slack bounds. */
  const BIG_M: real := 1000000.0

  /** Depreciation period (years) used for every cable type's annuity factor. */
  const DEPRECIATION_YEARS: nat := 40

  /** Bound of the voltage-angle variables, in degrees (range -30 .. 30). */
  const THETA_MAX: real := 30.0

  /** One row of the cable catalogue. */
  datatype CableType = CableType(
    xOhmPerKm: real,
    iMaxA: real,
    priceSgdPerM: real,
    annuityFactor: real,
    omFactor: real)

  /** The configuration constants the rules use. `degToRad` stands for pi/180. */
  datatype Config = Config(degToRad: real, vBase: real, sBase: real, interestRate: real)
  {
    predicate Valid() {
      degToRad > 0.0 && vBase > 0.0 && sBase > 0.0 && interestRate > 0.0
    }
  }

  /** One row of the node table: its id, its `Type` ("PLANT", "CONSUMER", ...)
      and its `GRID0_kW` demand, `None` standing for NaN. */
  datatype NodeRow = NodeRow(id: NodeId, kind: string, gridKw: Option<real>)

  /** The index sets and parameters the model is built from. */
  datatype Instance = Instance(
    subs: seq<NodeId>,
    consumers: seq<NodeId>,
    edges: seq<Edge>,
    lengths: map<Edge, real>,
    demand: map<NodeId, real>,
    types: seq<CableType>,
    costTypes: seq<string>,
    cfg: Config)
  {
    /** The node set: substations first, then consumers. */
    function Nodes(): seq<NodeId> {
      subs + consumers
    }
  }

  /** A value for every variable of the model. */
  datatype Assignment = Assignment(
    x: map<VarKey, nat>,
    theta: map<NodeId, real>,
    powerSub: map<NodeId, real>,
    flow: map<VarKey, real>,
    slack: map<VarKey, real>,
    costs: map<string, real>)

  /** k indexes the edge-by-cable-type product set. */
  predicate IsVarKey(inst: Instance, k: VarKey) {
    (k.0, k.1) in inst.edges && 0 <= k.2 < |inst.types|
  }

  /** Every variable is declared over exactly its index set. */
  ghost predicate Declared(inst: Instance, a: Assignment) {
    && (forall k :: k in a.x <==> IsVarKey(inst, k))
    && (forall k :: k in a.flow <==> IsVarKey(inst, k))
    && (forall k :: k in a.slack <==> IsVarKey(inst, k))
    && (forall i :: i in a.theta <==> i in inst.Nodes())
    && (forall i :: i in a.powerSub <==> i in inst.subs)
    && (forall c :: c in a.costs <==> c in inst.costTypes)
  }

  /** The variable domains: x binary, theta within its bounds,
      substation injections non-negative. */
  ghost predicate WithinDomains(a: Assignment) {
    && (forall k :: k in a.x ==> a.x[k] <= 1)
    && (forall i :: i in a.theta ==> -THETA_MAX <= a.theta[i] <= THETA_MAX)
    && (forall i :: i in a.powerSub ==> a.powerSub[i] >= 0.0)
  }

  predicate Distinct<T(==)>(s: seq<T>) {
    forall p, q :: 0 <= p < q < |s| ==> s[p] != s[q]
  }

  lemma {:induction false} DistinctConcat<T>(s: seq<T>, t: seq<T>)
    requires Distinct(s) && Distinct(t)
    requires forall y :: y in s ==> y !in t
    ensures Distinct(s + t)
  {
    forall p, q | 0 <= p < q < |s + t|
      ensures (s + t)[p] != (s + t)[q]
    {
      if q < |s| {
      } else if p >= |s| {
        assert (s + t)[p] == t[p - |s|] && (s + t)[q] == t[q - |s|];
      } else {
        assert (s + t)[p] == s[p] && s[p] in s;
        assert (s + t)[q] == t[q - |s|] && t[q - |s|] in t;
      }
    }
  }

  /** Dropping the last element keeps the rest distinct and without it. */
  lemma DistinctSplit(s: seq<NodeId>)
    requires Distinct(s) && s != []
    ensures Distinct(s[..|s| - 1]) && s[|s| - 1] !in s[..|s| - 1]
  {
    var prefix := s[..|s| - 1];
    forall p, q | 0 <= p < q < |prefix| ensures prefix[p] != prefix[q] {
      assert prefix[p] == s[p] && prefix[q] == s[q];
    }
    forall p | 0 <= p < |prefix| ensures prefix[p] != s[|s| - 1] {
      assert prefix[p] == s[p];
    }
  }

  /** A non-empty set has an element to pick. */
  lemma NonEmptyHasElement(s: set<NodeId>)
    requires s != {}
    ensures exists y :: y in s
  {
    assert (forall y :: y !in s) ==> s == {};
  }
}
