/** Preprocessing of the node table and of the length dictionary: the
    substation and consumer index lists, the per-unit demand map (rows whose
    demand is NaN get no entry) and the flattening of the nested length
    dictionary into a pair-keyed map. */
module Preprocess {
  import opened GridTypes

  const PLANT: string := "PLANT"
  const CONSUMER: string := "CONSUMER"

  // ---------------------------------------------------------------------
  // Node index lists

  /** The ids of the rows of the given type, in row order. */
  function IdsOfKind(rows: seq<NodeRow>, kind: string): (r: seq<NodeId>)
    ensures |r| <= |rows|
  {
    if rows == [] then []
    else
      var last := rows[|rows| - 1];
      IdsOfKind(rows[..|rows| - 1], kind) + (if last.kind == kind then [last.id] else [])
  }

  /** Some row with this id has this type. */
  ghost predicate HasKind(rows: seq<NodeRow>, id: NodeId, kind: string) {
    exists k :: 0 <= k < |rows| && rows[k].id == id && rows[k].kind == kind
  }

  /** The ids in the row index are unique. */
  predicate DistinctIds(rows: seq<NodeRow>) {
    forall p, q :: 0 <= p < q < |rows| ==> rows[p].id != rows[q].id
  }

  lemma {:induction false} IdsOfKindMembers(rows: seq<NodeRow>, kind: string, id: NodeId)
    ensures id in IdsOfKind(rows, kind) <==> HasKind(rows, id, kind)
  {
    if rows != [] {
      IdsOfKindMembers(rows[..|rows| - 1], kind, id);
      HasKindSplit(rows, kind, id);
    }
  }

  /** A row of the given id and type is in the prefix or is the last row. */
  lemma HasKindSplit(rows: seq<NodeRow>, kind: string, id: NodeId)
    requires rows != []
    ensures HasKind(rows, id, kind) <==>
              HasKind(rows[..|rows| - 1], id, kind) || (rows[|rows| - 1].id == id && rows[|rows| - 1].kind == kind)
  {
    var n := |rows|;
    var prefix := rows[..n - 1];
    if HasKind(prefix, id, kind) {
      var k :| 0 <= k < |prefix| && prefix[k].id == id && prefix[k].kind == kind;
      assert rows[k] == prefix[k];
    }
    if HasKind(rows, id, kind) {
      var k :| 0 <= k < n && rows[k].id == id && rows[k].kind == kind;
      if k < n - 1 {
        assert prefix[k] == rows[k];
      }
    }
  }

  lemma {:induction false} IdsOfKindDistinct(rows: seq<NodeRow>, kind: string)
    requires DistinctIds(rows)
    ensures Distinct(IdsOfKind(rows, kind))
  {
    if rows != [] {
      var n := |rows|;
      var prefix := rows[..n - 1];
      var last := rows[n - 1];
      assert DistinctIds(prefix) by {
        forall p, q | 0 <= p < q < |prefix| ensures prefix[p].id != prefix[q].id {
          assert prefix[p] == rows[p] && prefix[q] == rows[q];
        }
      }
      IdsOfKindDistinct(prefix, kind);
      IdsOfKindMembers(prefix, kind, last.id);
      assert !HasKind(prefix, last.id, kind) by {
        forall k | 0 <= k < |prefix| ensures prefix[k].id != last.id {
          assert prefix[k] == rows[k];
        }
      }
      DistinctConcat(IdsOfKind(prefix, kind), if last.kind == kind then [last.id] else []);
    }
  }

  /** With unique row ids, the node list (plants, then consumers) repeats no id. */
  lemma NodeListDistinct(rows: seq<NodeRow>)
    requires DistinctIds(rows)
    ensures Distinct(IdsOfKind(rows, PLANT) + IdsOfKind(rows, CONSUMER))
  {
    var subs := IdsOfKind(rows, PLANT);
    var consumers := IdsOfKind(rows, CONSUMER);
    IdsOfKindDistinct(rows, PLANT);
    IdsOfKindDistinct(rows, CONSUMER);
    forall y | y in subs ensures y !in consumers {
      IdsOfKindMembers(rows, PLANT, y);
      IdsOfKindMembers(rows, CONSUMER, y);
      var k :| 0 <= k < |rows| && rows[k].id == y && rows[k].kind == PLANT;
      forall k' | 0 <= k' < |rows| && rows[k'].id == y ensures rows[k'].kind != CONSUMER {
        assert k' == k;
      }
    }
    DistinctConcat(subs, consumers);
  }

  // ---------------------------------------------------------------------
  // Demand map

  /** A demand in kW as a per-unit power on the base sBase (in MVA). */
  function PerUnitDemand(kw: real, sBase: real): real
    requires sBase > 0.0
  {
    3.0 * (kw * 1000.0) / (sBase * 1000000.0)
  }

  /** The demand map the preprocessing loop leaves after reading rows. */
  function DemandMap(rows: seq<NodeRow>, sBase: real): map<NodeId, real>
    requires sBase > 0.0
  {
    if rows == [] then map[]
    else
      var last := rows[|rows| - 1];
      var m := DemandMap(rows[..|rows| - 1], sBase);
      match last.gridKw
      case None => m
      case Some(kw) => m[last.id := PerUnitDemand(kw, sBase)]
  }

  /** Some row with this id has a demand that is not NaN. */
  ghost predicate HasReading(rows: seq<NodeRow>, id: NodeId) {
    exists k :: 0 <= k < |rows| && rows[k].id == id && rows[k].gridKw.Some?
  }

  /** The loop over the node table that fills the demand map. */
  method BuildDemand(rows: seq<NodeRow>, sBase: real) returns (demand: map<NodeId, real>)
    requires sBase > 0.0
    ensures demand == DemandMap(rows, sBase)
  {
    demand := map[];
    for k := 0 to |rows|
      invariant demand == DemandMap(rows[..k], sBase)
    {
      assert rows[..k + 1][..k] == rows[..k];
      match rows[k].gridKw {
        case None =>
        case Some(kw) =>
          demand := demand[rows[k].id := PerUnitDemand(kw, sBase)];
      }
    }
    assert rows[..|rows|] == rows;
  }

  /** A node gets a demand entry exactly when some row for it has a reading. */
  lemma {:induction false} DemandMapKeys(rows: seq<NodeRow>, sBase: real, id: NodeId)
    requires sBase > 0.0
    ensures id in DemandMap(rows, sBase) <==> HasReading(rows, id)
  {
    if rows != [] {
      var n := |rows|;
      var prefix := rows[..n - 1];
      DemandMapKeys(prefix, sBase, id);
      if HasReading(prefix, id) {
        var k :| 0 <= k < |prefix| && prefix[k].id == id && prefix[k].gridKw.Some?;
        assert rows[k] == prefix[k];
      }
      if HasReading(rows, id) {
        var k :| 0 <= k < n && rows[k].id == id && rows[k].gridKw.Some?;
        if k < n - 1 {
          assert prefix[k] == rows[k];
        }
      }
    }
  }

  /** With unique ids, each reading lands, scaled to per unit, under its own id. */
  lemma {:induction false} DemandMapValue(rows: seq<NodeRow>, sBase: real, k: nat)
    requires sBase > 0.0 && DistinctIds(rows)
    requires k < |rows| && rows[k].gridKw.Some?
    ensures rows[k].id in DemandMap(rows, sBase)
    ensures DemandMap(rows, sBase)[rows[k].id] == PerUnitDemand(rows[k].gridKw.value, sBase)
  {
    var n := |rows|;
    if k < n - 1 {
      var prefix := rows[..n - 1];
      assert DistinctIds(prefix) by {
        forall p, q | 0 <= p < q < |prefix| ensures prefix[p].id != prefix[q].id {
          assert prefix[p] == rows[p] && prefix[q] == rows[q];
        }
      }
      assert prefix[k] == rows[k];
      DemandMapValue(prefix, sBase, k);
      assert rows[n - 1].id != rows[k].id;
    }
  }

  // ---------------------------------------------------------------------
  // Length dictionary

  /** The pair-keyed map holding length[i][j] under (i, j). */
  function FlatLengths(nested: map<NodeId, map<NodeId, real>>): (r: map<Edge, real>)
    ensures forall e :: e in r <==> e.0 in nested && e.1 in nested[e.0]
    ensures forall e :: e in r ==> r[e] == nested[e.0][e.1]
  {
    var keys := set i, j | i in nested && j in nested[i] :: (i, j);
    PairKeysComplete(nested, keys);
    map e | e in keys :: nested[e.0][e.1]
  }

  lemma PairKeysComplete(nested: map<NodeId, map<NodeId, real>>, keys: set<Edge>)
    requires keys == set i, j | i in nested && j in nested[i] :: (i, j)
    ensures forall e :: e in keys <==> e.0 in nested && e.1 in nested[e.0]
  {
    forall e: Edge | e.0 in nested && e.1 in nested[e.0] ensures e in keys {
      var (i, j) := e;
      assert (i, j) in keys;
    }
  }

  /** The inner loop: add length[(i, j)] for every j of one row. */
  method FlattenRow(flat0: map<Edge, real>, i: NodeId, row: map<NodeId, real>) returns (flat: map<Edge, real>)
    ensures forall e :: e in flat <==> e in flat0 || (e.0 == i && e.1 in row)
    ensures forall e :: e in flat ==> flat[e] == if e.0 == i && e.1 in row then row[e.1] else flat0[e]
  {
    flat := flat0;
    var cols := row.Keys;
    while cols != {}
      invariant cols <= row.Keys
      invariant forall e :: e in flat <==> e in flat0 || (e.0 == i && e.1 in row && e.1 !in cols)
      invariant forall e :: e in flat ==>
                  flat[e] == if e.0 == i && e.1 in row && e.1 !in cols then row[e.1] else flat0[e]
      decreases cols
    {
      NonEmptyHasElement(cols);
      var j :| j in cols;
      flat := flat[(i, j) := row[j]];
      cols := cols - {j};
    }
  }

  /** The nested loops that turn length[i][j] into length[(i, j)]. */
  method FlattenLengths(nested: map<NodeId, map<NodeId, real>>) returns (flat: map<Edge, real>)
    ensures flat == FlatLengths(nested)
  {
    flat := map[];
    var rest := nested.Keys;
    while rest != {}
      invariant rest <= nested.Keys
      invariant forall e :: e in flat <==> e.0 in nested && e.0 !in rest && e.1 in nested[e.0]
      invariant forall e :: e in flat ==> flat[e] == nested[e.0][e.1]
      decreases rest
    {
      NonEmptyHasElement(rest);
      var i :| i in rest;
      flat := FlattenRow(flat, i, nested[i]);
      rest := rest - {i};
    }
    assert flat.Keys == FlatLengths(nested).Keys;
  }
}
