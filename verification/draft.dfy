/** The earlier draft of the engine: its own copy of the catalogue and the
    graph, a history read off the board instead of the move list, a one-way
    comparison of move lists, and a successor choice that uses its random
    draw only in a log message and has no fallback. */
module Draft {
  import opened Board
  import opened Collections
  import opened Graphs
  import opened WinGraph
  import GameLogic

  // ---------------------------------------------------------------------
  // The draft's tables: the catalogue entries in insertion order ("4_5" is
  // inserted twice), the nodes in the order they are added, and the edges.

  const DraftEntriesPly0: seq<(Label, seq<Tile>)> := [
    ("0_0", [InitTile])
  ]

  const DraftEntriesPly1: seq<(Label, seq<Tile>)> := [
    ("1_0", [Tile(4, Machine)]),
    ("1_1", [Tile(0, Machine)])
  ]

  const DraftEntriesPly2: seq<(Label, seq<Tile>)> := [
    ("2_0", [Tile(4, Machine), Tile(1, Human)]),
    ("2_1", [Tile(4, Machine), Tile(0, Human)]),
    ("2_2", [Tile(0, Machine), Tile(1, Human)]),
    ("2_3", [Tile(0, Machine), Tile(2, Human)]),
    ("2_4", [Tile(0, Machine), Tile(4, Human)])
  ]

  const DraftEntriesPly3: seq<(Label, seq<Tile>)> := [
    ("3_0", [Tile(4, Machine), Tile(1, Human), Tile(6, Machine)]),
    ("3_1", [Tile(4, Machine), Tile(0, Human), Tile(2, Machine)]),
    ("3_2", [Tile(0, Machine), Tile(2, Human), Tile(6, Machine)]),
    ("3_3", [Tile(0, Machine), Tile(4, Human), Tile(8, Machine)])
  ]

  const DraftEntriesPly4: seq<(Label, seq<Tile>)> := [
    ("4_0", [Tile(4, Machine), Tile(1, Human), Tile(6, Machine), Tile(0, Human)]),
    ("4_1", [Tile(4, Machine), Tile(1, Human), Tile(6, Machine), Tile(2, Human)]),
    ("4_2", [Tile(4, Machine), Tile(0, Human), Tile(2, Machine), Tile(3, Human)]),
    ("4_3", [Tile(4, Machine), Tile(0, Human), Tile(2, Machine), Tile(6, Human)]),
    ("4_4", [Tile(4, Machine), Tile(0, Human), Tile(2, Machine), Tile(3, Human)]),
    ("4_5", [Tile(0, Machine), Tile(2, Human), Tile(6, Machine), Tile(1, Human)]),
    ("4_5", [Tile(0, Machine), Tile(2, Human), Tile(6, Machine), Tile(1, Human)]),
    ("4_6", [Tile(0, Machine), Tile(4, Human), Tile(8, Machine), Tile(3, Human)]),
    ("4_7", [Tile(0, Machine), Tile(4, Human), Tile(8, Machine), Tile(6, Human)])
  ]

  const DraftEntriesPly5: seq<(Label, seq<Tile>)> := [
    ("5_0", [Tile(4, Machine), Tile(1, Human), Tile(6, Machine), Tile(0, Human), Tile(2, Machine)]),
    ("5_1", [Tile(4, Machine), Tile(1, Human), Tile(6, Machine), Tile(2, Human), Tile(0, Machine)]),
    ("5_2", [Tile(4, Machine), Tile(0, Human), Tile(2, Machine), Tile(3, Human), Tile(6, Machine)]),
    ("5_3", [Tile(4, Machine), Tile(0, Human), Tile(2, Machine), Tile(6, Human), Tile(3, Machine)]),
    ("5_4", [Tile(4, Machine), Tile(0, Human), Tile(2, Machine), Tile(3, Human), Tile(8, Machine)]),
    ("5_5", [Tile(0, Machine), Tile(2, Human), Tile(6, Machine), Tile(1, Human), Tile(3, Machine)]),
    ("5_6", [Tile(0, Machine), Tile(4, Human), Tile(8, Machine), Tile(3, Human), Tile(5, Machine)]),
    ("5_7", [Tile(0, Machine), Tile(4, Human), Tile(8, Machine), Tile(6, Human), Tile(2, Machine)])
  ]

  const DraftEntriesPly6: seq<(Label, seq<Tile>)> := [
    ("6_0", [Tile(4, Machine), Tile(1, Human), Tile(6, Machine), Tile(2, Human), Tile(0, Machine), Tile(8, Human)]),
    ("6_1", [Tile(4, Machine), Tile(0, Human), Tile(2, Machine), Tile(6, Human), Tile(3, Machine), Tile(5, Human)]),
    ("6_2", [Tile(4, Machine), Tile(0, Human), Tile(2, Machine), Tile(6, Human), Tile(3, Machine), Tile(7, Human)]),
    ("6_3", [Tile(4, Machine), Tile(0, Human), Tile(2, Machine), Tile(3, Human), Tile(8, Machine), Tile(7, Human)]),
    ("6_4", [Tile(0, Machine), Tile(4, Human), Tile(8, Machine), Tile(3, Human), Tile(5, Machine), Tile(2, Human)]),
    ("6_5", [Tile(0, Machine), Tile(4, Human), Tile(8, Machine), Tile(3, Human), Tile(5, Machine), Tile(6, Human)]),
    ("6_6", [Tile(0, Machine), Tile(4, Human), Tile(8, Machine), Tile(3, Human), Tile(5, Machine), Tile(1, Human)])
  ]

  const DraftEntriesPly7: seq<(Label, seq<Tile>)> := [
    ("7_0", [Tile(4, Machine), Tile(1, Human), Tile(6, Machine), Tile(2, Human), Tile(0, Machine), Tile(8, Human), Tile(3, Machine)]),
    ("7_1", [Tile(4, Machine), Tile(0, Human), Tile(2, Machine), Tile(6, Human), Tile(3, Machine), Tile(5, Human), Tile(1, Machine)]),
    ("7_2", [Tile(4, Machine), Tile(0, Human), Tile(2, Machine), Tile(6, Human), Tile(3, Machine), Tile(7, Human), Tile(5, Machine)]),
    ("7_3", [Tile(4, Machine), Tile(0, Human), Tile(2, Machine), Tile(3, Human), Tile(8, Machine), Tile(7, Human), Tile(4, Machine)]),
    ("7_4", [Tile(0, Machine), Tile(4, Human), Tile(8, Machine), Tile(3, Human), Tile(5, Machine), Tile(2, Human), Tile(6, Machine)]),
    ("7_5", [Tile(0, Machine), Tile(4, Human), Tile(8, Machine), Tile(3, Human), Tile(5, Machine), Tile(6, Human), Tile(2, Machine)]),
    ("7_6", [Tile(0, Machine), Tile(4, Human), Tile(8, Machine), Tile(3, Human), Tile(5, Machine), Tile(1, Human), Tile(5, Machine)])
  ]

  const DraftEntriesPly8: seq<(Label, seq<Tile>)> := [
    ("8_0", [Tile(4, Machine), Tile(0, Human), Tile(2, Machine), Tile(6, Human), Tile(3, Machine), Tile(5, Human), Tile(1, Machine), Tile(8, Human)]),
    ("8_1", [Tile(4, Machine), Tile(0, Human), Tile(2, Machine), Tile(6, Human), Tile(3, Machine), Tile(5, Human), Tile(1, Machine), Tile(7, Human)]),
    ("8_2", [Tile(0, Machine), Tile(4, Human), Tile(8, Machine), Tile(3, Human), Tile(5, Machine), Tile(6, Human), Tile(2, Machine), Tile(1, Human)]),
    ("8_3", [Tile(0, Machine), Tile(4, Human), Tile(8, Machine), Tile(3, Human), Tile(5, Machine), Tile(2, Human), Tile(6, Machine), Tile(7, Human)])
  ]

  const DraftEntriesPly9: seq<(Label, seq<Tile>)> := [
    ("9_0", [Tile(4, Machine), Tile(0, Human), Tile(2, Machine), Tile(6, Human), Tile(3, Machine), Tile(5, Human), Tile(1, Machine), Tile(8, Human), Tile(7, Machine)]),
    ("9_1", [Tile(4, Machine), Tile(0, Human), Tile(2, Machine), Tile(6, Human), Tile(3, Machine), Tile(5, Human), Tile(1, Machine), Tile(7, Human), Tile(8, Machine)]),
    ("9_2", [Tile(0, Machine), Tile(4, Human), Tile(8, Machine), Tile(3, Human), Tile(5, Machine), Tile(6, Human), Tile(2, Machine), Tile(1, Human), Tile(7, Machine)]),
    ("9_3", [Tile(0, Machine), Tile(4, Human), Tile(8, Machine), Tile(3, Human), Tile(5, Machine), Tile(2, Human), Tile(6, Machine), Tile(7, Human), Tile(1, Machine)])
  ]

  const DraftEntries: seq<(Label, seq<Tile>)> :=
    DraftEntriesPly0 + DraftEntriesPly1 + DraftEntriesPly2 + DraftEntriesPly3 + DraftEntriesPly4 + DraftEntriesPly5 + DraftEntriesPly6 + DraftEntriesPly7 + DraftEntriesPly8 + DraftEntriesPly9

  const DraftNodesPly0: seq<Label> := ["0_0"]
  const DraftNodesPly1: seq<Label> := ["1_0", "1_1"]
  const DraftNodesPly2: seq<Label> := ["2_0", "2_1", "2_2", "2_3", "2_4"]
  const DraftNodesPly3: seq<Label> := ["3_0", "3_1", "3_2", "3_3"]
  const DraftNodesPly4: seq<Label> := ["4_0", "4_1", "4_2", "4_3", "4_4", "4_5", "4_6", "4_7"]
  const DraftNodesPly5: seq<Label> := ["5_0", "5_1", "5_2", "5_3", "5_4", "5_5", "5_6", "5_7"]
  const DraftNodesPly6: seq<Label> := ["6_0", "6_1", "6_2", "6_3", "6_4", "6_5", "6_6"]
  const DraftNodesPly7: seq<Label> := ["7_0", "7_1", "7_2", "7_3", "7_4", "7_5", "7_6"]
  const DraftNodesPly8: seq<Label> := ["8_0", "8_1", "8_2", "8_3"]
  const DraftNodesPly9: seq<Label> := ["9_0", "9_1", "9_2", "9_3"]

  const DraftNodes: seq<Label> :=
    DraftNodesPly0 + DraftNodesPly1 + DraftNodesPly2 + DraftNodesPly3 + DraftNodesPly4 + DraftNodesPly5 + DraftNodesPly6 + DraftNodesPly7 + DraftNodesPly8 + DraftNodesPly9

  const DraftEdgesFromPly0: seq<(Label, Label)> := [
    ("0_0", "1_0"),
    ("0_0", "1_1")
  ]

  const DraftEdgesFromPly1: seq<(Label, Label)> := [
    ("1_0", "2_0"),
    ("1_0", "2_1"),
    ("1_1", "2_2"),
    ("1_1", "2_3"),
    ("1_1", "2_4")
  ]

  const DraftEdgesFromPly2: seq<(Label, Label)> := [
    ("2_0", "3_0"),
    ("2_1", "3_1"),
    ("2_3", "3_2"),
    ("2_4", "3_3")
  ]

  const DraftEdgesFromPly3: seq<(Label, Label)> := [
    ("3_0", "4_0"),
    ("3_0", "4_1"),
    ("3_1", "4_2"),
    ("3_1", "4_3"),
    ("3_2", "4_4"),
    ("3_2", "4_5"),
    ("3_3", "4_6"),
    ("3_3", "4_7")
  ]

  const DraftEdgesFromPly4: seq<(Label, Label)> := [
    ("4_0", "5_0"),
    ("4_1", "5_1"),
    ("4_2", "5_2"),
    ("4_3", "5_3"),
    ("4_4", "5_4"),
    ("4_5", "5_5"),
    ("4_6", "5_6"),
    ("4_7", "5_7")
  ]

  const DraftEdgesFromPly6: seq<(Label, Label)> := [
    ("6_0", "7_0"),
    ("6_1", "7_1"),
    ("6_2", "7_2"),
    ("6_3", "7_3"),
    ("6_4", "7_4"),
    ("6_5", "7_5"),
    ("6_6", "7_6")
  ]

  const DraftEdgesFromPly7: seq<(Label, Label)> := [
    ("7_1", "8_0"),
    ("7_1", "8_1"),
    ("7_4", "8_2"),
    ("7_4", "8_3")
  ]

  const DraftEdgesFromPly8: seq<(Label, Label)> := [
    ("8_0", "9_0"),
    ("8_1", "9_1"),
    ("8_2", "9_2"),
    ("8_3", "9_3")
  ]

  const DraftEdges: seq<(Label, Label)> :=
    DraftEdgesFromPly0 + DraftEdgesFromPly1 + DraftEdgesFromPly2 + DraftEdgesFromPly3 + DraftEdgesFromPly4 + DraftEdgesFromPly6 + DraftEdgesFromPly7 + DraftEdgesFromPly8

  /** The draft catalogue as `init_steps_map` returns it. */
  function DraftCatalogue(): map<Label, seq<Tile>> {
    InsertAll(map[], DraftEntries)
  }

  /** The draft's `init_steps_map`: one insert per entry, in order. */
  method InitStepsMap() returns (stepsMap: map<Label, seq<Tile>>)
    ensures stepsMap == DraftCatalogue()
  {
    stepsMap := InsertEach(DraftEntries);
  }

  lemma DraftEntryChunksAgree()
    ensures DraftEntriesPly0 == EntriesPly0 && DraftEntriesPly1 == EntriesPly1
    ensures DraftEntriesPly2 == EntriesPly2 && DraftEntriesPly3 == EntriesPly3
    ensures DraftEntriesPly4 == EntriesPly4[..6] + [EntriesPly4[5]] + EntriesPly4[6..]
    ensures DraftEntriesPly5 == EntriesPly5 && DraftEntriesPly6 == EntriesPly6
    ensures DraftEntriesPly7 == EntriesPly7 && DraftEntriesPly8 == EntriesPly8
    ensures DraftEntriesPly9 == EntriesPly9
  {
  }

  /** The draft adds the same nodes in the same order and the same edges in
      the same order as the current graph. */
  lemma DraftGraphAgrees()
    ensures DraftNodes == Keys && DraftEdges == Edges
  {
  }

  /** Inserting "4_5" a second time with the same moves changes nothing:
      the draft catalogue is the current one, with its 50 labels. */
  lemma DraftCatalogueIsCatalogue()
    ensures DraftCatalogue() == Catalogue()
    ensures |DraftCatalogue()| == 50
  {
    DraftEntryChunksAgree();
    var e := EntriesPly4[5];
    var a := EntriesPly0 + EntriesPly1 + EntriesPly2 + EntriesPly3 + EntriesPly4[..5];
    var b := EntriesPly4[6..] + EntriesPly5 + EntriesPly6 + EntriesPly7 + EntriesPly8 + EntriesPly9;
    assert EntriesPly4[..6] == EntriesPly4[..5] + [e];
    assert EntriesPly4 == EntriesPly4[..5] + [e] + EntriesPly4[6..];
    assert Entries == a + [e] + b;
    assert DraftEntries == a + [e] + [e] + b;
    InsertAllRepeat(map[], a, e, b);
    CatalogueIsKeyList();
  }

  /** The draft catalogue has the current catalogue's defects: "4_2" and
      "4_4" hold the same moves, "7_3" plays cell 4 twice and "7_6" plays
      cell 5 twice. */
  lemma DraftKnownDefects()
    ensures "4_2" in DraftCatalogue() && "4_4" in DraftCatalogue()
    ensures DraftCatalogue()["4_2"] == DraftCatalogue()["4_4"]
    ensures "7_3" in DraftCatalogue() && |DraftCatalogue()["7_3"]| == 7
    ensures DraftCatalogue()["7_3"][0].fieldId == DraftCatalogue()["7_3"][6].fieldId == 4
    ensures "7_6" in DraftCatalogue() && |DraftCatalogue()["7_6"]| == 7
    ensures DraftCatalogue()["7_6"][4].fieldId == DraftCatalogue()["7_6"][6].fieldId == 5
  {
    DraftCatalogueIsCatalogue();
    KnownDefects();
  }

  /** Every successor of every label is a label of the draft catalogue, so
      the `unwrap()` on the catalogue lookup of `search_next_step` never
      panics. */
  lemma DraftSuccessorsCatalogued()
    ensures forall l, x | x in Successors(DraftEdges, l) :: x in DraftCatalogue()
  {
    DraftGraphAgrees();
    DraftCatalogueIsCatalogue();
    SuccessorsCatalogued();
  }

  /** The draft's `build_graph`: the 50 nodes, then the 42 edges. */
  method BuildGraph() returns (g: Graph)
    ensures Represents(g, DraftNodes, DraftEdges)
  {
    DraftGraphAgrees();
    EdgeEndpointsDeclared();
    g := BuildGraphFrom(DraftNodes, DraftEdges);
  }

  /** One node per catalogue label, and every edge joins two catalogue labels
      of consecutive plies. */
  lemma DraftGraphShape()
    ensures Distinct(DraftNodes) && (set l | l in DraftNodes) == DraftCatalogue().Keys
    ensures forall k | 0 <= k < |DraftEdges| ::
      && DraftEdges[k].0 in DraftCatalogue() && DraftEdges[k].1 in DraftCatalogue()
      && WellFormedLabel(DraftEdges[k].0) && WellFormedLabel(DraftEdges[k].1)
      && Ply(DraftEdges[k].1) == Ply(DraftEdges[k].0) + 1
  {
    DraftGraphAgrees();
    DraftCatalogueIsCatalogue();
    KeysDistinct();
    CatalogueIsKeyList();
    EdgeEndpointsDeclared();
    EdgesAdvanceOnePly();
  }

  // ---------------------------------------------------------------------
  // The history read off the board.

  /** The moves one tile contributes: a Human move if the Human clicked it,
      then a Machine move if the Machine did. */
  function TileSteps(t: TileData): seq<Tile> {
    (if t.humanClicked then [Tile(t.id, Human)] else []) +
    (if t.machineClicked then [Tile(t.id, Machine)] else [])
  }

  /** The moves read off the board, tile by tile in board order. */
  function BoardSteps(rows: seq<TileData>): seq<Tile>
    decreases |rows|
  {
    if rows == [] then [] else BoardSteps(rows[..|rows| - 1]) + TileSteps(rows[|rows| - 1])
  }

  /** Reading two parts of the board reads each in turn, in board order. */
  lemma {:induction false} BoardStepsAppend(a: seq<TileData>, b: seq<TileData>)
    ensures BoardSteps(a + b) == BoardSteps(a) + BoardSteps(b)
    decreases |b|
  {
    if b == [] {
      assert a + b == a;
    } else {
      var init := b[..|b| - 1];
      assert (a + b)[..|a + b| - 1] == a + init;
      BoardStepsAppend(a, init);
    }
  }

  /** A move is read off the board exactly when its tile carries the
      matching click; no move is by `Nobody`. */
  lemma {:induction false} BoardStepsMembers(rows: seq<TileData>)
    ensures forall id :: Tile(id, Human) in BoardSteps(rows) <==> exists d | d in rows :: d.id == id && d.humanClicked
    ensures forall id :: Tile(id, Machine) in BoardSteps(rows) <==> exists d | d in rows :: d.id == id && d.machineClicked
    ensures forall t | t in BoardSteps(rows) :: t.player != Nobody
    decreases |rows|
  {
    if rows != [] {
      var init := rows[..|rows| - 1];
      var last := rows[|rows| - 1];
      BoardStepsMembers(init);
      assert forall d :: d in rows <==> d in init || d == last;
    }
  }

  /** The draft's `build_steps_from_model`: walks the board and pushes the
      Human move, then the Machine move, of each clicked tile. */
  method BuildStepsFromModel(tiles: VecModel<TileData>) returns (steps: seq<Tile>)
    ensures steps == BoardSteps(tiles.rows)
  {
    steps := [];
    for i := 0 to |tiles.rows|
      invariant steps == BoardSteps(tiles.rows[..i])
    {
      var tileData := tiles.rows[i];
      assert tiles.rows[..i + 1][..i] == tiles.rows[..i];
      if tileData.humanClicked {
        steps := steps + [Tile(tileData.id, Human)];
      }
      if tileData.machineClicked {
        steps := steps + [Tile(tileData.id, Machine)];
      }
    }
    assert tiles.rows[..|tiles.rows|] == tiles.rows;
  }

  // ---------------------------------------------------------------------
  // The one-way comparison.

  /** Same length, and every move of `b` occurs in `a`: the set of moves of
      `b` is contained in that of `a`. */
  predicate VecTileCompare(a: seq<Tile>, b: seq<Tile>): (r: bool)
    ensures r <==> (|a| == |b| && (set t | t in b) <= (set t | t in a))
  {
    ElementsSubset(a, b);
    |a| == |b| && forall t | t in b :: t in a
  }

  /** The draft comparison holds whenever the current one does, and the two
      agree when `b` repeats no move. */
  lemma VecTileCompareVersusEqualUnordered(a: seq<Tile>, b: seq<Tile>)
    ensures GameLogic.TilesEqualUnordered(a, b) ==> VecTileCompare(a, b)
    ensures Distinct(b) ==> (VecTileCompare(a, b) <==> GameLogic.TilesEqualUnordered(a, b))
  {
    var sa := set t | t in a;
    var sb := set t | t in b;
    if GameLogic.TilesEqualUnordered(a, b) {
      forall t | t in b ensures t in a {
        assert t in sb;
      }
    }
    if Distinct(b) && VecTileCompare(a, b) {
      SetOfSeqSize(a);
      SetOfSeqSize(b);
      SubsetSize(sb, sa);
    }
  }

  /** The draft comparison is reflexive but not symmetric: a list that
      repeats a move is matched by a list that does not, not the other way
      round. */
  lemma VecTileCompareNotSymmetric(x: Tile, y: Tile)
    requires x != y
    ensures forall a :: VecTileCompare(a, a)
    ensures VecTileCompare([x, y], [x, x])
    ensures !VecTileCompare([x, x], [x, y])
  {
    assert y in [x, y];
    assert y !in [x, x];
  }

  /** Some label of the draft catalogue whose moves compare equal to
      `state` in the draft's sense, or None; the scan order is unspecified. */
  method FindKey(steps: map<Label, seq<Tile>>, state: seq<Tile>) returns (found: Option<Label>)
    ensures found.Some? ==> found.value in steps && VecTileCompare(steps[found.value], state)
    ensures found.None? ==> forall l | l in steps :: !VecTileCompare(steps[l], state)
  {
    var unseen := steps.Keys;
    while unseen != {}
      invariant unseen <= steps.Keys
      invariant forall l | l in steps && l !in unseen :: !VecTileCompare(steps[l], state)
      decreases |unseen|
    {
      var key :| key in unseen;
      if VecTileCompare(steps[key], state) {
        return Some(key);
      }
      unseen := unseen - {key};
    }
    return None;
  }

  // ---------------------------------------------------------------------
  // The successor choice.

  /** The walks of the draft's `search_next_step` from every node in turn.
      Each walk that reaches the node labelled `key` assigns each of its
      successors in turn, so every such walk leaves the last successor
      enumerated; the random index is drawn and used only in a log
      message. */
  method LastSuccessorWalk(graph: Graph, ghost keys: seq<Label>, ghost es: seq<(Label, Label)>, key: Label)
    returns (nextState: Option<Label>)
    requires Represents(graph, keys, es) && Distinct(keys) && key in keys
    ensures nextState.Some? <==> Successors(es, key) != []
    ensures nextState.Some? ==> nextState.value == Last(Successors(es, key))
  {
    nextState := None;
    ghost var seen := false;
    for start := 0 to |graph.nodes|
      invariant nextState.Some? ==> Successors(es, key) != [] && nextState.value == Last(Successors(es, key))
      invariant !seen ==> forall j | 0 <= j < start :: graph.nodes[j] != key
      invariant seen && Successors(es, key) != [] ==> nextState.Some?
    {
      // The walk from `start` visits `start` first and then nodes reachable
      // from it; which of those it reaches is not modelled.
      var reaches: bool :| (graph.nodes[start] == key ==> reaches) && (reaches ==> key in graph.nodes);
      if reaches {
        var nx :| 0 <= nx < |graph.nodes| && graph.nodes[nx] == key;
        NeighborsAreSuccessors(graph.edges, keys, es, nx);
        var neighbours := Neighbors(graph.edges, nx);
        var count := |neighbours|;
        var neighbourIndex := 0;
        if count >= 1 {
          neighbourIndex :| 0 <= neighbourIndex < count;
        }
        ghost var before := nextState;
        for n := 0 to count
          invariant n == 0 ==> nextState == before
          invariant n > 0 ==> nextState == Some(Successors(es, key)[n - 1])
        {
          nextState := Some(graph.nodes[neighbours[n]]);
        }
        seen := true;
      }
    }
    assert seen by {
      var j :| 0 <= j < |keys| && keys[j] == key;
    }
  }

  /** The draft's `search_next_step`. The board is matched against the
      catalogue (the anchor). Every walk that reaches the anchor's node
      assigns each of its successors in turn, so the choice ends on the last
      successor enumerated; the random index is drawn and used only in a log
      message. The
      result is that successor's catalogue sequence, or [] when there is no
      anchor or it has no successor. The board is only read. */
  method SearchNextStep(tiles: VecModel<TileData>) returns (r: seq<Tile>, ghost anchor: Option<Label>)
    ensures anchor.Some? ==>
      anchor.value in DraftCatalogue() && VecTileCompare(DraftCatalogue()[anchor.value], BoardSteps(tiles.rows))
    ensures anchor.None? ==>
      forall l | l in DraftCatalogue() :: !VecTileCompare(DraftCatalogue()[l], BoardSteps(tiles.rows))
    ensures anchor.None? || Successors(DraftEdges, anchor.value) == [] ==> r == []
    ensures anchor.Some? && Successors(DraftEdges, anchor.value) != [] ==>
      && Last(Successors(DraftEdges, anchor.value)) in DraftCatalogue()
      && r == DraftCatalogue()[Last(Successors(DraftEdges, anchor.value))]
  {
    var actualState := BuildStepsFromModel(tiles);
    var stepsMap := InitStepsMap();
    var graph := BuildGraph();
    var foundedKey := FindKey(stepsMap, actualState);
    var nextState: Option<Label> := None;
    anchor := foundedKey;

    // Without an anchor the walks below assign nothing.
    if foundedKey.Some? {
      DraftGraphShape();
      assert foundedKey.value in DraftNodes by {
        assert foundedKey.value in set l | l in DraftNodes;
      }
      nextState := LastSuccessorWalk(graph, DraftNodes, DraftEdges, foundedKey.value);
    }

    match nextState
    case Some(key) =>
      assert key in stepsMap by {
        DraftSuccessorsCatalogued();
        assert key in Successors(DraftEdges, foundedKey.value);
      }
      r := stepsMap[key];
    case None =>
      r := [];
  }

  /** The draft always takes the target of the first listed edge leaving the
      anchor. */
  lemma DraftTakesFirstListedEdge(l: Label, k: nat)
    requires k < |DraftEdges| && DraftEdges[k].0 == l
    requires forall j | 0 <= j < k :: DraftEdges[j].0 != l
    ensures Successors(DraftEdges, l) != [] && Last(Successors(DraftEdges, l)) == DraftEdges[k].1
  {
    LastSuccessorIsFirstEdge(DraftEdges, l, k);
  }

  /** From "3_2" the draft always answers "4_4", whose moves do not extend
      those of "3_2"; the current engine may also answer "4_5". */
  lemma DraftAnswerToThreeTwo()
    ensures Successors(DraftEdges, "3_2") != [] && Last(Successors(DraftEdges, "3_2")) == "4_4"
    ensures "3_2" in Catalogue() && "4_4" in Catalogue()
    ensures !ExtendsByOne(Catalogue()["3_2"], Catalogue()["4_4"])
    ensures "4_5" in Successors(Edges, "3_2")
  {
    DraftGraphAgrees();
    assert Edges[15] == ("3_2", "4_4");
    assert Edges[16] == ("3_2", "4_5");
    assert forall j | 0 <= j < 15 :: Edges[j].0 != "3_2";
    DraftTakesFirstListedEdge("3_2", 15);
    SuccessorsSpec(Edges, "3_2", "4_5");
    EdgesExtendByOneMove();
    assert OffScript(Edges[15]);
  }
}
