# Radial distribution-network formulation

A Dafny model of the formulation in
`cea/concept_project/algorithm_planning_lp/pyomo_multi_linetype.py`. That file
builds a mixed-integer linear program that designs a radial electric
distribution network. Every candidate edge between two nodes may receive at
most one cable type from a catalogue. Power must balance at every node. Line
flows follow a DC power-flow equation, which a big-M slack switches off on
unbuilt edges. Flows are bounded by cable capacity. The number of built edges
is fixed at nodes minus substations. The objective adds the investment and
operation-and-maintenance (O&M) costs.

The model has three layers.

- **Assembly** (`build_model.dfy`, `edge_index.dfy`, `preprocess.dfy`,
  `annuity.dfy`). Imperative methods mirror the loops of `main`: the annuity
  factor stored on each catalogue row, the edge index of all pairs `i < j`,
  the per-unit demand map that skips NaN rows, and the flattening of the
  nested length dictionary. Each method is proved equal to a specification
  function, and the properties are proved about those functions.
- **Rules** (`constraints.dfy`, `costs.dfy`). Every constraint family is a
  predicate over an `Assignment`, a map per Pyomo variable over its index
  set. `Feasible` is the conjunction of all rules together with the variable
  domains: x binary, theta in [-30, 30], substation power non-negative.
  Constraint generation is the function `Formulate`. It returns the first
  error the Pyomo rules raise, in the order the constraints are declared
  (lines 421-437): a missing demand entry, a balance rule without a
  variable, a missing edge length, a division by a zero reactance, a radial
  rule without a variable, an unknown cost type, or an om rule whose inputs
  are missing: no investment cost variable, or no cable type 0 (line 94).
  Pyomo refuses a rule whose
  value is a plain bool instead of an expression. The balance rule at a
  consumer evaluates to a plain bool when no other node exists or the
  catalogue is empty. The radial rule does so when x has no index. The
  accumulation loops of the power-balance, one-cable-type and investment
  rules are methods proved equal to those predicates' sums.
- **Consequences** (`conservation.dfy`, `consequences.dfy`, `example.dfy`). These are
  lemmas about every feasible assignment: network-wide conservation, zero
  slack on built edges, zero flow on unbuilt edges, the count of built
  edges, and the cost identities. A concrete two-node design shows that all
  the rules can hold together.

The configuration constants `pi/180`, `V_BASE`, `S_BASE` and `INTEREST_RATE`
are fields of `Config`. `Feasible` requires all four to be positive
(`Config.Valid`). `BuildModel.Build` and `BuildModel.AssembledInstance`
require only `S_BASE > 0`, so a zero interest rate reaches the annuity
failure of `Build`. Node ids are integers, and
the node list is the substations followed by the consumers.

Two properties of the code shape the model:

- **Sign convention.** `power_balance_rule` adds `power_over_line[i,j,t]` to
  the inflow of the lower node `i` and subtracts it at `j` (lines 146-154).
  A positive value on `(i, j)` therefore carries power into the
  lower-indexed node. `Conservation.TwoNodeFlows` shows this: a substation
  `s < c` feeds its consumer `c` through a flow of `-demand[c]`.
- **NaN demand.** A PLANT or CONSUMER row whose demand is NaN gets no demand
  entry (lines 382-385). `power_balance_rule` reads `dict_power_demand[i]`
  for every node without a default (line 140), so such a node stops the
  assembly at the power balance. `BuildModel.NaNDemandStopsAssembly` proves
  this for rows with unique ids. The error is the failed demand lookup
  whenever the catalogue is not empty. With an empty catalogue, an earlier
  consumer's balance rule can fail first as a plain bool.

## Model

| member | source | states |
|---|---|---|
| EdgeIndexing.Row | cea/concept_project/algorithm_planning_lp/pyomo_multi_linetype.py:371-373 | the inner loop's pairs for node i are exactly the (i, j) with j among the given nodes and i < j |
| EdgeIndexing.Pairs | cea/concept_project/algorithm_planning_lp/pyomo_multi_linetype.py:369-373 | a pair is in the index of rows us and columns js exactly when its first part is in us, its second in js, and first < second |
| EdgeIndexing.EdgeIndex | cea/concept_project/algorithm_planning_lp/pyomo_multi_linetype.py:369-373 | the edge index holds exactly the node pairs (i, j) with i < j |
| EdgeIndexing.BuildEdgeIndex | cea/concept_project/algorithm_planning_lp/pyomo_multi_linetype.py:369-373 | the nested append loops produce exactly EdgeIndex of the node list |
| EdgeIndexing.EdgeIndexDistinct | cea/concept_project/algorithm_planning_lp/pyomo_multi_linetype.py:369-373 | for distinct node ids the index repeats no pair and contains every pair of distinct nodes as (min, max) |
| EdgeIndexing.EdgeIndexSize | cea/concept_project/algorithm_planning_lp/pyomo_multi_linetype.py:369-373 | for n distinct nodes the index has n (n - 1) / 2 entries |
| Preprocess.IdsOfKindMembers | cea/concept_project/algorithm_planning_lp/pyomo_multi_linetype.py:364-365 | an id is in the PLANT (CONSUMER) list exactly when some row with that id has that type |
| Preprocess.NodeListDistinct | cea/concept_project/algorithm_planning_lp/pyomo_multi_linetype.py:364-366 | with unique row ids, substations followed by consumers repeat no id |
| Preprocess.BuildDemand | cea/concept_project/algorithm_planning_lp/pyomo_multi_linetype.py:381-385 | the loop over the node table leaves exactly the map DemandMap of the rows |
| Preprocess.DemandMapKeys | cea/concept_project/algorithm_planning_lp/pyomo_multi_linetype.py:381-385 | a node has a demand entry exactly when some row for it has a non-NaN demand |
| Preprocess.DemandMapValue | cea/concept_project/algorithm_planning_lp/pyomo_multi_linetype.py:383-385 | with unique ids each reading is stored under its id as 3 * kW * 10^3 / (S_BASE * 10^6) |
| Preprocess.FlatLengths | cea/concept_project/algorithm_planning_lp/pyomo_multi_linetype.py:387-390 | the flat map has key (i, j) exactly when length[i][j] exists, with that value |
| Preprocess.FlattenRow | cea/concept_project/algorithm_planning_lp/pyomo_multi_linetype.py:389-390 | the inner loop adds (i, j) for every key j of row i, keeps every other entry, and changes no other value |
| Preprocess.FlattenLengths | cea/concept_project/algorithm_planning_lp/pyomo_multi_linetype.py:387-390 | the nested loops produce exactly FlatLengths of the nested dictionary |
| Annuity.AnnuityFactor | cea/concept_project/algorithm_planning_lp/pyomo_multi_linetype.py:52 | fails exactly when (1 + i)^n = 1; otherwise a satisfies a ((1 + i)^n - 1) = (1 + i)^n i |
| Annuity.AnnuityUndefinedWhenDegenerate | cea/concept_project/algorithm_planning_lp/pyomo_multi_linetype.py:52 | a zero period or a zero rate makes the factor undefined |
| Annuity.AnnuityBounds | cea/concept_project/algorithm_planning_lp/pyomo_multi_linetype.py:52 | for n >= 1 and i > 0 the factor exists, lies in (i, 1 + i], and is 1 + i for one year |
| Annuity.SetAnnuityFactors | cea/concept_project/algorithm_planning_lp/pyomo_multi_linetype.py:350-351 | on success every catalogue row gets annuity_factor(40, rate) and nothing else changes; on failure the catalogue is unchanged |
| Costs.ParseCostType | cea/concept_project/algorithm_planning_lp/pyomo_multi_linetype.py:76-106 | a recognised name parses to the cost type it names; any other name is an UnknownCostType error for that name |
| Costs.ParseCostTypeName | cea/concept_project/algorithm_planning_lp/pyomo_multi_linetype.py:76-106 | parsing the name of each cost type gives that type back |
| Costs.InvestmentCost | cea/concept_project/algorithm_planning_lp/pyomo_multi_linetype.py:76-84 | the accumulation loop yields the sum over edges and types of 2 x length price annuity |
| Costs.NothingBuiltCostsNothing | cea/concept_project/algorithm_planning_lp/pyomo_multi_linetype.py:76-84 | the investment sum is 0 when every x is 0 |
| Costs.InvestmentNonnegative | cea/concept_project/algorithm_planning_lp/pyomo_multi_linetype.py:76-84 | with non-negative lengths, prices and annuity factors, the investment sum is never negative |
| GridTypes.Declared | cea/concept_project/algorithm_planning_lp/pyomo_multi_linetype.py:413-418 | every variable map has exactly the keys of its Pyomo index set: x, flow and slack over edges by cable types, theta over the nodes, substation power over the substations, costs over the cost types |
| GridTypes.WithinDomains | cea/concept_project/algorithm_planning_lp/pyomo_multi_linetype.py:413-415 | x is 0 or 1, theta lies in [-30, 30], and substation power is non-negative |
| Constraints.Inflow | cea/concept_project/algorithm_planning_lp/pyomo_multi_linetype.py:141-154 | the power into node i: its injection if it is a substation, plus the flows on its edges to higher nodes, minus the flows on its edges from lower nodes |
| Constraints.PowerBalance | cea/concept_project/algorithm_planning_lp/pyomo_multi_linetype.py:127-156 | node i has a demand entry and its demand equals its inflow |
| Constraints.Reactance | cea/concept_project/algorithm_planning_lp/pyomo_multi_linetype.py:178 | the reactance of an edge and cable type is length times x_ohm_per_km / 1000 |
| Constraints.AngleFlow | cea/concept_project/algorithm_planning_lp/pyomo_multi_linetype.py:177-178 | the DC flow term (theta_i - theta_j) (pi/180) / reactance |
| Constraints.DcFlow | cea/concept_project/algorithm_planning_lp/pyomo_multi_linetype.py:159-181 | the flow of each edge and cable type is the angle term plus the slack |
| Constraints.SlackAngle | cea/concept_project/algorithm_planning_lp/pyomo_multi_linetype.py:184-197 | the angle of a substation is 0 |
| Constraints.SlackPos | cea/concept_project/algorithm_planning_lp/pyomo_multi_linetype.py:200-217 | the slack is at most (1 - x) 1000000 |
| Constraints.SlackNeg | cea/concept_project/algorithm_planning_lp/pyomo_multi_linetype.py:220-237 | the slack is at least -(1 - x) 1000000 |
| Constraints.CapacityLimit | cea/concept_project/algorithm_planning_lp/pyomo_multi_linetype.py:259-260 | the per-unit limit of a cable type is I_max V_BASE 10^3 / (S_BASE 10^6) |
| Constraints.CapacityPos | cea/concept_project/algorithm_planning_lp/pyomo_multi_linetype.py:240-261 | the flow is at most x times the cable's limit |
| Constraints.CapacityNeg | cea/concept_project/algorithm_planning_lp/pyomo_multi_linetype.py:264-285 | the flow is at least -x times the cable's limit |
| Constraints.Radial | cea/concept_project/algorithm_planning_lp/pyomo_multi_linetype.py:288-300 | the sum of x over all edges and cable types is the number of nodes minus the number of substations |
| Constraints.OneLinetype | cea/concept_project/algorithm_planning_lp/pyomo_multi_linetype.py:303-321 | at most one cable type is chosen on the edge |
| Constraints.WellFormed | cea/concept_project/algorithm_planning_lp/pyomo_multi_linetype.py:421-437 | every rule can be generated: every node has a demand entry and touches a variable, every edge has a length and non-zero reactances, there is an edge and a cable type, every cost type is known, and the om rule's inputs exist |
| Constraints.Feasible | cea/concept_project/algorithm_planning_lp/pyomo_multi_linetype.py:413-437 | the assignment is declared over the index sets, lies in the variable domains, and meets every constraint family of a well-formed, indexed instance |
| Costs.InvestmentSum | cea/concept_project/algorithm_planning_lp/pyomo_multi_linetype.py:76-84 | the sum over edges and cable types of 2 x length price annuity_factor |
| Costs.CostRule | cea/concept_project/algorithm_planning_lp/pyomo_multi_linetype.py:61-106 | investment equals InvestmentSum, om equals investment times om_factor of type 0, and losses is not constrained |
| Costs.Objective | cea/concept_project/algorithm_planning_lp/pyomo_multi_linetype.py:109-120 | the unweighted sum of the cost variables over the cost types |
| Preprocess.IdsOfKind | cea/concept_project/algorithm_planning_lp/pyomo_multi_linetype.py:364-365 | the ids of the rows of one type, in row order |
| Preprocess.DemandMap | cea/concept_project/algorithm_planning_lp/pyomo_multi_linetype.py:381-385 | the per-unit demand of every row with a reading, under the row's id |
| Annuity.Pow | cea/concept_project/algorithm_planning_lp/pyomo_multi_linetype.py:52 | the n-th power of a real, by repeated multiplication |
| GridTypes.Instance.Nodes | cea/concept_project/algorithm_planning_lp/pyomo_multi_linetype.py:366 | the node list is the substations followed by the consumers |
| EdgeIndexing.Indexed | cea/concept_project/algorithm_planning_lp/pyomo_multi_linetype.py:403 | the instance's edge set is the edge index of its node list |
| Preprocess.PerUnitDemand | cea/concept_project/algorithm_planning_lp/pyomo_multi_linetype.py:384-385 | a reading in kW becomes 3 * kW * 10^3 / (S_BASE * 10^6) per unit |
| Constraints.SubInjection | cea/concept_project/algorithm_planning_lp/pyomo_multi_linetype.py:143-144 | a substation contributes its power variable to its inflow; any other node contributes 0 |
| Constraints.LineFlow | cea/concept_project/algorithm_planning_lp/pyomo_multi_linetype.py:148-149 | the sum of the flow variables of the first u cable types on edge (i, j) |
| Constraints.Outgoing | cea/concept_project/algorithm_planning_lp/pyomo_multi_linetype.py:146-149 | the sum, over the first n nodes j with i < j, of the flows on (i, j) over all cable types |
| Constraints.Incoming | cea/concept_project/algorithm_planning_lp/pyomo_multi_linetype.py:151-154 | the sum, over the first n nodes j with j < i, of the flows on (j, i) over all cable types |
| Constraints.TouchesVariable | cea/concept_project/algorithm_planning_lp/pyomo_multi_linetype.py:143-156 | the balance rule at i holds a variable, so Pyomo gets an expression and not a plain bool: i is a substation, or the catalogue is not empty and some other node exists |
| Constraints.LinesKnown | cea/concept_project/algorithm_planning_lp/pyomo_multi_linetype.py:176-178 | when the catalogue is not empty, every edge has a length and a non-zero reactance for every cable type, so the DC flow rule neither fails a lookup nor divides by zero |
| Constraints.TypeCount | cea/concept_project/algorithm_planning_lp/pyomo_multi_linetype.py:318-320 | the number of the first u cable types chosen on edge (i, j) |
| Constraints.BuiltUpTo | cea/concept_project/algorithm_planning_lp/pyomo_multi_linetype.py:300 | the sum of x over the first m edges and all cable types; over all edges it is summation(m.var_x) |
| Costs.CostTypeName | cea/concept_project/algorithm_planning_lp/pyomo_multi_linetype.py:76-104 | the name under which cost_rule recognises each cost type |
| Costs.LengthsKnown | cea/concept_project/algorithm_planning_lp/pyomo_multi_linetype.py:81 | when the catalogue is not empty, every edge has a length for the investment rule to read |
| Costs.OmInputsPresent | cea/concept_project/algorithm_planning_lp/pyomo_multi_linetype.py:94 | an om cost type comes with the investment cost variable and cable type 0 that its rule reads |
| Costs.LineCost | cea/concept_project/algorithm_planning_lp/pyomo_multi_linetype.py:80-83 | the investment of edge (i, j) over the first u cable types: 2 x length price annuity_factor for each |
| Costs.InvestmentUpTo | cea/concept_project/algorithm_planning_lp/pyomo_multi_linetype.py:78-83 | the investment summed over the first m edges |
| Constraints.NodeInflow | cea/concept_project/algorithm_planning_lp/pyomo_multi_linetype.py:140-156 | the accumulation loops yield the injection (at substations only), plus the flows on edges to higher nodes, minus the flows on edges from lower nodes |
| Constraints.AddLineFlows | cea/concept_project/algorithm_planning_lp/pyomo_multi_linetype.py:148-149 | the inner loop adds the flows of every cable type on edge (i, j) |
| Constraints.SubtractLineFlows | cea/concept_project/algorithm_planning_lp/pyomo_multi_linetype.py:153-154 | the inner loop subtracts the flows of every cable type on edge (j, i) |
| Constraints.PowerBalanceReadsEdges | cea/concept_project/algorithm_planning_lp/pyomo_multi_linetype.py:146-154 | every pair the power balance reads is in the edge index |
| Constraints.NumberOfLinetypes | cea/concept_project/algorithm_planning_lp/pyomo_multi_linetype.py:318-321 | the loop counts the chosen cable types of the edge |
| Constraints.NodeErrorReadsVariable | cea/concept_project/algorithm_planning_lp/pyomo_multi_linetype.py:140-156 | the balance rule at a node raises nothing exactly when the node has a demand entry and the rule reads a variable, its substation power or a flow on a line at it; the error is NoDemand exactly when the demand entry is missing, which is checked first |
| Constraints.TrivialBalanceIsConstant | cea/concept_project/algorithm_planning_lp/pyomo_multi_linetype.py:141-156 | a balance rule that touches no variable has inflow 0 for every assignment, so Pyomo gets the plain bool demand == 0 |
| Constraints.BalanceError | cea/concept_project/algorithm_planning_lp/pyomo_multi_linetype.py:140-156 | finds an error exactly when one of the scanned nodes lacks a demand entry or touches no variable, and returns the error of the first such node |
| Constraints.BalanceErrorComplete | cea/concept_project/algorithm_planning_lp/pyomo_multi_linetype.py:140-156 | the scan over all nodes finds no error exactly when every node has a demand entry and touches a variable |
| Constraints.RadialError | cea/concept_project/algorithm_planning_lp/pyomo_multi_linetype.py:300 | the radial rule raises an error exactly when x has no index key |
| Constraints.TrivialRadialIsConstant | cea/concept_project/algorithm_planning_lp/pyomo_multi_linetype.py:300 | when the radial rule errs, the sum over x is 0 for every assignment, so Pyomo gets a plain bool |
| Constraints.LineError | cea/concept_project/algorithm_planning_lp/pyomo_multi_linetype.py:176-181 | the DC flow rules of an edge raise no error exactly when its length exists and every type's reactance is non-zero |
| Constraints.LinesError | cea/concept_project/algorithm_planning_lp/pyomo_multi_linetype.py:176-181 | no DC flow rule raises an error exactly when no edge's rules do; any error is a missing length or a zero reactance |
| Constraints.CostError | cea/concept_project/algorithm_planning_lp/pyomo_multi_linetype.py:85-106 | a cost rule raises no error exactly when its name parses and, for om, the investment variable and cable type 0 exist |
| Constraints.CostsError | cea/concept_project/algorithm_planning_lp/pyomo_multi_linetype.py:434-437 | the cost definitions raise no error exactly when no single cost rule does |
| Constraints.Formulate | cea/concept_project/algorithm_planning_lp/pyomo_multi_linetype.py:421-437 | constraint generation succeeds exactly when the instance is well formed; a NoDemand error names a node without demand, a TrivialBalance error a node that touches no variable, and a TrivialRadial error means x has no index key |
| Constraints.MissingDemandFails | cea/concept_project/algorithm_planning_lp/pyomo_multi_linetype.py:140-156 | a node without a demand entry stops constraint generation at the power balance, with a NoDemand error whenever the catalogue is not empty |
| Conservation.NetIsRowSum | cea/concept_project/algorithm_planning_lp/pyomo_multi_linetype.py:146-154 | the flow part of a node's balance is the sum of its antisymmetric edge terms |
| Conservation.FlowsCancel | cea/concept_project/algorithm_planning_lp/pyomo_multi_linetype.py:146-154 | summed over all nodes the edge terms of the power balances cancel |
| Conservation.PowerConservation | cea/concept_project/algorithm_planning_lp/pyomo_multi_linetype.py:140-156 | in a feasible assignment total demand equals total substation injection |
| Conservation.FeasibleDemandNonnegative | cea/concept_project/algorithm_planning_lp/pyomo_multi_linetype.py:415 | substation power is non-negative, so a feasible assignment needs a non-negative total demand |
| Conservation.TwoNodeFlows | cea/concept_project/algorithm_planning_lp/pyomo_multi_linetype.py:140-156 | with one substation s and one consumer c, the edge carries -demand[c] when s < c and demand[c] when c < s, and the substation supplies both demands |
| Consequences.BuiltEdgeHasNoSlack | cea/concept_project/algorithm_planning_lp/pyomo_multi_linetype.py:176-237 | x = 1 forces slack 0, so the flow equals (theta_i - theta_j) (pi/180) / (length x_ohm / 1000) |
| Consequences.UnbuiltEdgeCarriesNoFlow | cea/concept_project/algorithm_planning_lp/pyomo_multi_linetype.py:258-285 | x = 0 forces zero flow |
| Consequences.BuiltEdgeWithinCapacity | cea/concept_project/algorithm_planning_lp/pyomo_multi_linetype.py:258-285 | x = 1 bounds the flow in both directions by I_max V_BASE 10^3 / (S_BASE 10^6) |
| Consequences.SlackWithinBigM | cea/concept_project/algorithm_planning_lp/pyomo_multi_linetype.py:217-237 | the slack lies within plus or minus 1000000, and is 0 unless x = 0 |
| Consequences.SubstationAngleIsReference | cea/concept_project/algorithm_planning_lp/pyomo_multi_linetype.py:197 | every substation's angle is 0 |
| Consequences.OneTypePerEdge | cea/concept_project/algorithm_planning_lp/pyomo_multi_linetype.py:318-321 | two chosen cable types on the same edge are the same type |
| Consequences.BuiltUpToCounts | cea/concept_project/algorithm_planning_lp/pyomo_multi_linetype.py:300-321 | with at most one type per edge, the sum of x over a prefix of edges is the number of built edges in it |
| Consequences.BuiltSetSize | cea/concept_project/algorithm_planning_lp/pyomo_multi_linetype.py:300-321 | with distinct edges, the set of built edges has as many members as the count of built edges |
| Consequences.BuiltEdgeCount | cea/concept_project/algorithm_planning_lp/pyomo_multi_linetype.py:300-321 | a feasible assignment builds exactly nodes minus substations edges, which are distinct edges when node ids are unique |
| Consequences.NothingBuiltNoInvestment | cea/concept_project/algorithm_planning_lp/pyomo_multi_linetype.py:76-84 | with nothing built the investment cost variable is 0 |
| Consequences.OmIsInvestmentShare | cea/concept_project/algorithm_planning_lp/pyomo_multi_linetype.py:94 | the O&M cost is the investment times om_factor of cable type 0 |
| Consequences.UnknownCostTypeFails | cea/concept_project/algorithm_planning_lp/pyomo_multi_linetype.py:105-106 | a cost type other than investment, om or losses makes generation fail and no assignment feasible |
| Consequences.ObjectiveValue | cea/concept_project/algorithm_planning_lp/pyomo_multi_linetype.py:120 | with cost types investment and om, the unweighted sum of the cost variables is investment * (1 + om_factor of type 0) |
| Consequences.ObjectiveNonnegative | cea/concept_project/algorithm_planning_lp/pyomo_multi_linetype.py:120 | for non-negative cost data the objective is never negative |
| Example.TwoNodeFeasible | cea/concept_project/algorithm_planning_lp/pyomo_multi_linetype.py:421-441 | a concrete design meets every constraint family at once: substation 0 feeds consumer 1 through flow -0.01 on (0, 1), with angles 0 and 1 (degToRad is 0.01 here), zero slack, and costs 2000 and 200; the instance is given directly, with a stored annuity factor of 1.0 that `Build` would not compute from its rate 0.06 |
| Example.LoneSubstationFails | cea/concept_project/algorithm_planning_lp/pyomo_multi_linetype.py:300 | an instance with one substation and no edge fails at the radial rule, whose sum over x is empty |
| Example.EmptyCatalogueFails | cea/concept_project/algorithm_planning_lp/pyomo_multi_linetype.py:140-156 | with an empty catalogue the consumer's balance holds no variable, and generation fails there before any later rule |
| BuildModel.AssembledInstance | cea/concept_project/algorithm_planning_lp/pyomo_multi_linetype.py:364-410 | the assembled sets are indexed; the substations, consumers and demand keys are exactly the PLANT rows, the CONSUMER rows and the non-NaN rows |
| BuildModel.Formulated | cea/concept_project/algorithm_planning_lp/pyomo_multi_linetype.py:421-443 | the model is returned exactly when the instance is well formed |
| BuildModel.Build | cea/concept_project/algorithm_planning_lp/pyomo_multi_linetype.py:350-443 | with a non-empty catalogue and an undefined annuity factor (a zero interest rate among others), assembly fails with AnnuityUndefined and leaves the catalogue unchanged; otherwise every row gets the factor and the result is constraint generation on the assembled instance |
| BuildModel.AssembledIndexSizes | cea/concept_project/algorithm_planning_lp/pyomo_multi_linetype.py:364-373 | with unique row ids the node list and the edge index repeat nothing, and the index has n (n - 1) / 2 entries |
| BuildModel.NaNDemandStopsAssembly | cea/concept_project/algorithm_planning_lp/pyomo_multi_linetype.py:381-385 | a substation or consumer whose demand is NaN makes assembly fail at the power balance, with a missing-demand error whenever the catalogue is not empty |

## Left out

- `initial_network` and the GIS calls it makes (lines 15-36), `generate_testcase`, and the CSV read of the catalogue (line 346). The node table, the nested length dictionary and the catalogue are parameters of `BuildModel.Build`.
- The timing and print block (lines 446-450) and the model name (line 397). These are I/O and plumbing.
- Solving: minimisation and optimality are out of reach. The model states feasibility of a given assignment and the objective value, not that an MILP solver finds a minimum.
- CostRule: the 'losses' rule (lines 95-104) places no constraint here. It is quadratic, it reads constants of a configuration module that is not part of this model, and the assembly declares only investment and om (lines 354-358).
- The configuration module `lp_config` is not part of this model. `pi/180`, `V_BASE`, `S_BASE` and `INTEREST_RATE` are real fields of `Config`, positive where a member requires `Config.Valid` or `S_BASE > 0`, and `SCENARIO` and `LOCATOR` are not modelled.
- Floating point: all arithmetic is exact real arithmetic. `np.pi` is the parameter `degToRad`, the `**` of the annuity factor is exact, and NaN is `None`.
- Radiality beyond the edge count: the code promises only that built edges number nodes minus substations. No connectivity or cycle property is stated.
- Unique ids: pandas indexes and Pyomo sets are taken to hold each node id once. Lemmas that need this take `Distinct` of the node list, or `DistinctIds` of the rows, as a premise. With a repeated id, Pyomo would merge duplicates that the model's sequence sums count twice.
- Constraints.Formulate: Pyomo's refusal of a rule that evaluates to a plain bool is modelled for the balance and radial rules. The one-cable-type rule is a plain bool only when the catalogue is empty, and then the radial rule has already failed. A zero `S_BASE` is not reported either: the capacity rules divide by `S_BASE*10**6` (lines 258-260 and 282-284), so Pyomo would raise a division by zero at line 427 whenever x has an index, while `Formulate` succeeds; every member that reads the capacity rules requires `S_BASE > 0`. Pyomo's other construction-time checks are not modelled.
- The identity of Pyomo objects and their aliasing are not modelled. A dictionary copy (lines 408-410) is the same value here.
