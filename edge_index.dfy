/** The candidate edge index: every node pair (i, j) with i < j, built by
    two nested loops over the node list in list order. */
module EdgeIndexing {
  import opened GridTypes

  /** The edges the inner loop appends for outer node i while it walks js. */
  function Row(i: NodeId, js: seq<NodeId>): (r: seq<Edge>)
    ensures forall e {:trigger e in r} :: e in r <==> e.0 == i && e.1 in js && i < e.1
  {
    if js == [] then []
    else
      var j := js[|js| - 1];
      Row(i, js[..|js| - 1]) + (if i != j && i < j then [(i, j)] else [])
  }

  /** The edges produced when the outer loop walks us and the inner loop js. */
  function Pairs(us: seq<NodeId>, js: seq<NodeId>): (r: seq<Edge>)
    ensures forall e {:trigger e in r} :: e in r <==> e.0 in us && e.1 in js && e.0 < e.1
  {
    if us == [] then []
    else Pairs(us[..|us| - 1], js) + Row(us[|us| - 1], js)
  }

  /** The edge index of a node list. */
  function EdgeIndex(nodes: seq<NodeId>): (r: seq<Edge>)
    ensures forall e {:trigger e in r} :: e in r <==> e.0 in nodes && e.1 in nodes && e.0 < e.1
  {
    Pairs(nodes, nodes)
  }

  /** The instance's edge set is the edge index of its node set. */
  predicate Indexed(inst: Instance) {
    inst.edges == EdgeIndex(inst.Nodes())
  }

  /** The nested loops of the index construction. */
  method BuildEdgeIndex(nodes: seq<NodeId>) returns (edges: seq<Edge>)
    ensures edges == EdgeIndex(nodes)
  {
    edges := [];
    var a := 0;
    while a < |nodes|
      invariant 0 <= a <= |nodes|
      invariant edges == Pairs(nodes[..a], nodes)
    {
      var i := nodes[a];
      var b := 0;
      while b < |nodes|
        invariant 0 <= b <= |nodes|
        invariant edges == Pairs(nodes[..a], nodes) + Row(i, nodes[..b])
      {
        var j := nodes[b];
        if i != j && i < j {
          edges := edges + [(i, j)];
        }
        assert nodes[..b + 1][..b] == nodes[..b];
        b := b + 1;
      }
      assert nodes[..b] == nodes;
      assert nodes[..a + 1][..a] == nodes[..a];
      a := a + 1;
    }
    assert nodes[..a] == nodes;
  }

  // ---------------------------------------------------------------------
  // Each pair of distinct nodes occurs exactly once

  lemma {:induction false} RowDistinct(i: NodeId, js: seq<NodeId>)
    requires Distinct(js)
    ensures Distinct(Row(i, js))
  {
    if js != [] {
      var js' := js[..|js| - 1];
      var j := js[|js| - 1];
      assert Distinct(js') by {
        forall p, q | 0 <= p < q < |js'| ensures js'[p] != js'[q] {
          assert js'[p] == js[p] && js'[q] == js[q];
        }
      }
      RowDistinct(i, js');
      assert j !in js' by {
        forall p | 0 <= p < |js'| ensures js'[p] != j {
          assert js'[p] == js[p];
        }
      }
      DistinctConcat(Row(i, js'), if i != j && i < j then [(i, j)] else []);
    }
  }

  lemma {:induction false} PairsDistinct(us: seq<NodeId>, js: seq<NodeId>)
    requires Distinct(us) && Distinct(js)
    ensures Distinct(Pairs(us, js))
  {
    if us != [] {
      var us' := us[..|us| - 1];
      var x := us[|us| - 1];
      assert Distinct(us') by {
        forall p, q | 0 <= p < q < |us'| ensures us'[p] != us'[q] {
          assert us'[p] == us[p] && us'[q] == us[q];
        }
      }
      assert x !in us' by {
        forall p | 0 <= p < |us'| ensures us'[p] != x {
          assert us'[p] == us[p];
        }
      }
      PairsDistinct(us', js);
      RowDistinct(x, js);
      DistinctConcat(Pairs(us', js), Row(x, js));
    }
  }

  /** With distinct node ids, the edge index repeats no pair; together with
      the membership clause of EdgeIndex, every pair of distinct nodes is in
      it exactly once, as (smaller, larger). */
  lemma EdgeIndexDistinct(nodes: seq<NodeId>)
    requires Distinct(nodes)
    ensures Distinct(EdgeIndex(nodes))
    ensures forall a, b :: a in nodes && b in nodes && a != b ==>
              (if a < b then (a, b) else (b, a)) in EdgeIndex(nodes)
  {
    PairsDistinct(nodes, nodes);
  }

  // ---------------------------------------------------------------------
  // Size of the edge index

  /** Number of elements of us below x. */
  function CountBelow(x: NodeId, us: seq<NodeId>): nat {
    if us == [] then 0
    else CountBelow(x, us[..|us| - 1]) + (if us[|us| - 1] < x then 1 else 0)
  }

  lemma {:induction false} RowAppend(i: NodeId, js: seq<NodeId>, x: NodeId)
    ensures |Row(i, js + [x])| == |Row(i, js)| + (if i < x then 1 else 0)
  {
    assert (js + [x])[..|js|] == js;
  }

  lemma {:induction false} PairsAppendColumn(us: seq<NodeId>, js: seq<NodeId>, x: NodeId)
    ensures |Pairs(us, js + [x])| == |Pairs(us, js)| + CountBelow(x, us)
  {
    if us != [] {
      PairsAppendColumn(us[..|us| - 1], js, x);
      RowAppend(us[|us| - 1], js, x);
    }
  }

  lemma {:induction false} RowComplement(x: NodeId, js: seq<NodeId>)
    requires x !in js
    ensures |Row(x, js)| + CountBelow(x, js) == |js|
  {
    if js != [] {
      var js' := js[..|js| - 1];
      assert forall y :: y in js' ==> y in js;
      RowComplement(x, js');
    }
  }

  /** Adding a new node x adds one pair per node already present. */
  lemma PairsSquareStep(s: seq<NodeId>, x: NodeId)
    requires x !in s
    ensures |Pairs(s + [x], s + [x])| == |Pairs(s, s)| + |s|
  {
    assert (s + [x])[..|s|] == s;
    PairsAppendColumn(s, s, x);
    RowAppend(x, s, x);
    RowComplement(x, s);
  }

  lemma HalfProductStep(n: nat)
    requires n >= 1
    ensures (n - 1) * (n - 2) + 2 * (n - 1) == n * (n - 1)
  {
  }

  /** The edge index of n distinct nodes has n * (n - 1) / 2 entries. */
  lemma {:induction false} EdgeIndexSize(nodes: seq<NodeId>)
    requires Distinct(nodes)
    ensures 2 * |EdgeIndex(nodes)| == |nodes| * (|nodes| - 1)
  {
    if nodes != [] {
      var n := |nodes|;
      var s := nodes[..n - 1];
      var x := nodes[n - 1];
      assert nodes == s + [x];
      DistinctSplit(nodes);
      EdgeIndexSize(s);
      PairsSquareStep(s, x);
      HalfProductStep(n);
    }
  }
}
