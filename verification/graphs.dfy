/** The directed graph the engine walks, as `petgraph::Graph` stores it:
    node weights (catalogue labels) by node index and edges as pairs of node
    indices in insertion order. Only what the engine uses is modelled: the
    node list, the edge list and a node's out-neighbours. */
module Graphs {
  import opened Board
  import opened Collections

  datatype Graph = Graph(nodes: seq<Label>, edges: seq<(nat, nat)>)

  /** The out-neighbours of node `n` in the order `Graph::neighbors` yields
      them: the most recently added edge first. */
  function Neighbors(edges: seq<(nat, nat)>, n: nat): (r: seq<nat>)
    ensures |r| <= |edges|
    decreases |edges|
  {
    if edges == [] then []
    else
      var last := edges[|edges| - 1];
      (if last.0 == n then [last.1] else []) + Neighbors(edges[..|edges| - 1], n)
  }

  /** The same enumeration read off a list of labelled edges: the targets of
      the edges leaving `l`, the last-listed edge first. */
  function Successors(es: seq<(Label, Label)>, l: Label): seq<Label>
    decreases |es|
  {
    if es == [] then []
    else
      var last := es[|es| - 1];
      (if last.0 == l then [last.1] else []) + Successors(es[..|es| - 1], l)
  }

  /** Edge `k` of `edges` joins the nodes labelled `es[k]`. */
  predicate EdgesRepresent(edges: seq<(nat, nat)>, keys: seq<Label>, es: seq<(Label, Label)>) {
    && |edges| == |es|
    && forall k | 0 <= k < |es| ::
         && edges[k].0 < |keys| && edges[k].1 < |keys|
         && keys[edges[k].0] == es[k].0 && keys[edges[k].1] == es[k].1
  }

  /** `g` is the graph built from the node labels `keys`, in that order, and
      the labelled edges `es`. */
  predicate Represents(g: Graph, keys: seq<Label>, es: seq<(Label, Label)>) {
    g.nodes == keys && EdgesRepresent(g.edges, keys, es)
  }

  /** `x` is a successor of `l` exactly when some listed edge goes from `l` to `x`. */
  lemma {:induction false} SuccessorsSpec(es: seq<(Label, Label)>, l: Label, x: Label)
    ensures x in Successors(es, l) <==> exists k | 0 <= k < |es| :: es[k] == (l, x)
    decreases |es|
  {
    if es != [] {
      var init := es[..|es| - 1];
      SuccessorsSpec(init, l, x);
      if exists k | 0 <= k < |es| :: es[k] == (l, x) {
        var k :| 0 <= k < |es| && es[k] == (l, x);
        if k < |es| - 1 { assert init[k] == (l, x); }
      }
      if exists k | 0 <= k < |init| :: init[k] == (l, x) {
        var k :| 0 <= k < |init| && init[k] == (l, x);
        assert es[k] == (l, x);
      }
    }
  }

  /** `l` has a successor exactly when some listed edge leaves `l`. */
  lemma {:induction false} SuccessorsNonEmpty(es: seq<(Label, Label)>, l: Label)
    ensures Successors(es, l) != [] <==> exists k | 0 <= k < |es| :: es[k].0 == l
    decreases |es|
  {
    if es != [] {
      var init := es[..|es| - 1];
      SuccessorsNonEmpty(init, l);
      if exists k | 0 <= k < |init| :: init[k].0 == l {
        var k :| 0 <= k < |init| && init[k].0 == l;
        assert es[k].0 == l;
      }
      if exists k | 0 <= k < |es| :: es[k].0 == l {
        var k :| 0 <= k < |es| && es[k].0 == l;
        if k < |es| - 1 { assert init[k].0 == l; }
      }
    }
  }

  /** The last successor enumerated is the target of the FIRST listed edge
      that leaves `l`. */
  lemma {:induction false} LastSuccessorIsFirstEdge(es: seq<(Label, Label)>, l: Label, k: nat)
    requires k < |es| && es[k].0 == l
    requires forall j | 0 <= j < k :: es[j].0 != l
    ensures Successors(es, l) != []
    ensures Successors(es, l)[|Successors(es, l)| - 1] == es[k].1
    decreases |es|
  {
    var init := es[..|es| - 1];
    if k == |es| - 1 {
      assert Successors(init, l) == [] by {
        SuccessorsNonEmpty(init, l);
      }
    } else {
      LastSuccessorIsFirstEdge(init, l, k);
    }
  }

  /** `x` is enumerated as a neighbour of `n` exactly when some edge goes
      from `n` to `x`. */
  lemma {:induction false} NeighborsSpec(edges: seq<(nat, nat)>, n: nat, x: nat)
    ensures x in Neighbors(edges, n) <==> exists k | 0 <= k < |edges| :: edges[k] == (n, x)
    decreases |edges|
  {
    if exists k | 0 <= k < |edges| :: edges[k] == (n, x) {
      var k :| 0 <= k < |edges| && edges[k] == (n, x);
      var p := NeighborIndex(edges, n, k);
    }
    if edges != [] && x in Neighbors(edges, n) {
      var m := |edges| - 1;
      var init := edges[..m];
      if !(edges[m] == (n, x)) {
        assert x in Neighbors(init, n);
        NeighborsSpec(init, n, x);
        var k :| 0 <= k < |init| && init[k] == (n, x);
        assert edges[k] == (n, x);
      }
    }
  }

  /** Every edge leaving `n` is enumerated, and of two such edges the one
      added later is enumerated first. */
  lemma {:induction false} NeighborsNewestFirst(edges: seq<(nat, nat)>, n: nat, i: nat, j: nat)
    requires i < j < |edges| && edges[i].0 == n && edges[j].0 == n
    ensures exists p, q | 0 <= p < q < |Neighbors(edges, n)| ::
      Neighbors(edges, n)[p] == edges[j].1 && Neighbors(edges, n)[q] == edges[i].1
    decreases |edges|
  {
    var m := |edges| - 1;
    var init := edges[..m];
    var head := if edges[m].0 == n then [edges[m].1] else [];
    assert Neighbors(edges, n) == head + Neighbors(init, n);
    if j == m {
      var q := NeighborIndex(init, n, i);
      assert Neighbors(edges, n)[0] == edges[j].1;
      assert Neighbors(edges, n)[q + 1] == edges[i].1;
    } else {
      NeighborsNewestFirst(init, n, i, j);
      var p, q :| 0 <= p < q < |Neighbors(init, n)| &&
        Neighbors(init, n)[p] == init[j].1 && Neighbors(init, n)[q] == init[i].1;
      assert Neighbors(edges, n)[p + |head|] == edges[j].1;
      assert Neighbors(edges, n)[q + |head|] == edges[i].1;
    }
  }

  /** The position at which the edge `k` leaving `n` is enumerated. */
  lemma {:induction false} NeighborIndex(edges: seq<(nat, nat)>, n: nat, k: nat) returns (p: nat)
    requires k < |edges| && edges[k].0 == n
    ensures p < |Neighbors(edges, n)| && Neighbors(edges, n)[p] == edges[k].1
    decreases |edges|
  {
    var m := |edges| - 1;
    var init := edges[..m];
    var head := if edges[m].0 == n then [edges[m].1] else [];
    assert Neighbors(edges, n) == head + Neighbors(init, n);
    if k == m {
      p := 0;
    } else {
      var p' := NeighborIndex(init, n, k);
      p := p' + |head|;
    }
  }

  /** Read through the node labels, the neighbours of node `n` are the label
      successors of its label, in the same order. */
  lemma {:induction false} NeighborsAreSuccessors(edges: seq<(nat, nat)>, keys: seq<Label>, es: seq<(Label, Label)>, n: nat)
    requires EdgesRepresent(edges, keys, es) && Distinct(keys) && n < |keys|
    ensures |Neighbors(edges, n)| == |Successors(es, keys[n])|
    ensures forall j | 0 <= j < |Neighbors(edges, n)| ::
              Neighbors(edges, n)[j] < |keys| && keys[Neighbors(edges, n)[j]] == Successors(es, keys[n])[j]
    decreases |es|
  {
    if es != [] {
      var m := |es| - 1;
      NeighborsAreSuccessors(edges[..m], keys, es[..m], n);
      assert (edges[m].0 == n) == (es[m].0 == keys[n]);
    }
  }
}
