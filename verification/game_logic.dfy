/** The machine opponent: turning the move history into a list of moves,
    comparing move lists, detecting and highlighting a win, opening the game,
    and choosing the machine's next move from the win graph. */
module GameLogic {
  import opened Board
  import opened Collections
  import opened Graphs
  import opened WinGraph

  /** The eight lines of the board: three rows, three columns, two diagonals. */
  const WinCombinations: seq<seq<int>> := [
    [0, 1, 2],
    [3, 4, 5],
    [6, 7, 8],
    [0, 3, 6],
    [1, 4, 7],
    [2, 5, 8],
    [0, 4, 8],
    [2, 4, 6]
  ]

  /** The line through the 3x3 board that starts at cell `a` and steps by
      `d`: a row, a column or one of the two diagonals. */
  predicate IsLine(a: int, d: int) {
    || (d == 1 && (a == 0 || a == 3 || a == 6))
    || (d == 3 && 0 <= a < 3)
    || (a == 0 && d == 4)
    || (a == 2 && d == 2)
  }

  /** `c` lists, in order, the three cells of a line of the board. */
  ghost predicate IsLineCells(c: seq<int>) {
    exists a, d | IsLine(a, d) :: c == [a, a + d, a + 2 * d]
  }

  /** The winning combinations are exactly the eight lines of the board,
      each listed once. */
  lemma WinCombinationsAreLines()
    ensures |WinCombinations| == 8 && Distinct(WinCombinations)
    ensures forall i | 0 <= i < |WinCombinations| :: IsLineCells(WinCombinations[i])
    ensures forall a, d | IsLine(a, d) :: [a, a + d, a + 2 * d] in WinCombinations
  {
    var starts, steps := [0, 3, 6, 0, 1, 2, 0, 2], [1, 1, 1, 3, 3, 3, 4, 2];
    forall i | 0 <= i < |WinCombinations| ensures IsLineCells(WinCombinations[i]) {
      var a, d := starts[i], steps[i];
      assert IsLine(a, d) && WinCombinations[i] == [a, a + d, a + 2 * d];
    }
  }

  // ---------------------------------------------------------------------
  // The history as a list of moves.

  /** The move a history entry stands for: tag "H" is a Human move, "M" a
      Machine move, any other tag none. */
  function StepOf(s: Sequence): seq<Tile> {
    if s.player == "H" then [Tile(s.id, Human)]
    else if s.player == "M" then [Tile(s.id, Machine)]
    else []
  }

  /** The moves recorded in `history`, in order. */
  function BuildStepsFromModel(history: seq<Sequence>): (steps: seq<Tile>)
    ensures |steps| <= |history|
    ensures forall t | t in steps :: t.player != Nobody
    decreases |history|
  {
    if history == [] then [] else StepOf(history[0]) + BuildStepsFromModel(history[1..])
  }

  /** Reading a history in two parts reads each part in turn. */
  lemma {:induction false} BuildStepsAppend(a: seq<Sequence>, b: seq<Sequence>)
    ensures BuildStepsFromModel(a + b) == BuildStepsFromModel(a) + BuildStepsFromModel(b)
    decreases |a|
  {
    if a == [] {
      assert a + b == b;
    } else {
      assert (a + b)[0] == a[0];
      assert (a + b)[1..] == a[1..] + b;
      BuildStepsAppend(a[1..], b);
    }
  }

  /** An entry with a tag other than "H" or "M" is dropped without trace. */
  lemma BuildStepsSkipsUntagged(a: seq<Sequence>, s: Sequence, b: seq<Sequence>)
    requires s.player != "H" && s.player != "M"
    ensures BuildStepsFromModel(a + [s] + b) == BuildStepsFromModel(a + b)
  {
    BuildStepsAppend(a + [s], b);
    BuildStepsAppend(a, [s]);
    BuildStepsAppend(a, b);
    assert BuildStepsFromModel([s]) == [] by {
      assert [s][1..] == [];
    }
  }

  /** When every entry is tagged "H" or "M", the i-th move is the i-th
      entry's cell, played by the player its tag names. */
  lemma {:induction false} BuildStepsTagged(history: seq<Sequence>)
    requires forall i | 0 <= i < |history| :: history[i].player == "H" || history[i].player == "M"
    ensures |BuildStepsFromModel(history)| == |history|
    ensures forall i | 0 <= i < |history| ::
      BuildStepsFromModel(history)[i] == Tile(history[i].id, if history[i].player == "H" then Human else Machine)
    decreases |history|
  {
    if history != [] {
      BuildStepsTagged(history[1..]);
    }
  }

  // ---------------------------------------------------------------------
  // Comparing move lists.

  /** Same length and the same set of moves: a move occurs in one list
      exactly when it occurs in the other. */
  predicate TilesEqualUnordered(a: seq<Tile>, b: seq<Tile>): (r: bool)
    ensures r <==> (|a| == |b| && forall t :: t in a <==> t in b)
  {
    ElementsEqual(a, b);
    |a| == |b| && (set t | t in a) == (set t | t in b)
  }

  /** The comparison is reflexive, symmetric and transitive. */
  lemma TilesEqualUnorderedIsEquivalence(a: seq<Tile>, b: seq<Tile>, c: seq<Tile>)
    ensures TilesEqualUnordered(a, a)
    ensures TilesEqualUnordered(a, b) ==> TilesEqualUnordered(b, a)
    ensures TilesEqualUnordered(a, b) && TilesEqualUnordered(b, c) ==> TilesEqualUnordered(a, c)
  {
  }

  /** Two lists that are permutations of each other compare equal. */
  lemma PermutationsEqualUnordered(a: seq<Tile>, b: seq<Tile>)
    requires multiset(a) == multiset(b)
    ensures TilesEqualUnordered(a, b)
  {
    assert |a| == |multiset(a)| == |multiset(b)| == |b|;
    forall t ensures t in a <==> t in b {
      assert t in a <==> t in multiset(a);
      assert t in b <==> t in multiset(b);
    }
  }

  /** The comparison is coarser than being a permutation: a list with a
      repeated move equals a list repeating a different move. */
  lemma EqualUnorderedIsNotPermutation(x: Tile, y: Tile)
    requires x != y
    ensures TilesEqualUnordered([x, x, y], [x, y, y])
    ensures multiset([x, x, y]) != multiset([x, y, y])
  {
  }

  /** A list of distinct moves equals, in this sense, only lists of distinct
      moves. */
  lemma EqualUnorderedKeepsDistinct(a: seq<Tile>, b: seq<Tile>)
    requires Distinct(b) && TilesEqualUnordered(a, b)
    ensures Distinct(a)
  {
    SetOfSeqSize(a);
    SetOfSeqSize(b);
  }

  /** Because "7_3" and "7_6" each repeat a move, neither is ever the match
      of a history that repeats no move. */
  lemma DefectiveEntriesNeverMatch(state: seq<Tile>)
    requires Distinct(state)
    ensures "7_3" in Catalogue() && !TilesEqualUnordered(Catalogue()["7_3"], state)
    ensures "7_6" in Catalogue() && !TilesEqualUnordered(Catalogue()["7_6"], state)
  {
    KnownDefects();
    CatalogueShape("7_3");
    CatalogueShape("7_6");
    var s73 := Catalogue()["7_3"];
    var s76 := Catalogue()["7_6"];
    assert !Distinct(s73) by {
      assert s73[0] == s73[6];
    }
    assert !Distinct(s76) by {
      assert s76[4] == s76[6];
    }
    if TilesEqualUnordered(s73, state) {
      EqualUnorderedKeepsDistinct(s73, state);
    }
    if TilesEqualUnordered(s76, state) {
      EqualUnorderedKeepsDistinct(s76, state);
    }
  }

  // ---------------------------------------------------------------------
  // Winning lines.

  /** `t` is a taken cell that `p` clicked; `Nobody` claims nothing. */
  predicate ClaimedBy(t: TileData, p: Player): (r: bool)
    ensures r ==> !t.empty && p != Nobody
    ensures r <==> !t.empty && ((p == Machine && t.machineClicked) || (p == Human && t.humanClicked))
  {
    !t.empty &&
    match p
    case Machine => t.machineClicked
    case Human => t.humanClicked
    case Nobody => false
  }

  /** Some tile with id `id` is claimed by `p`. */
  predicate HoldsCell(rows: seq<TileData>, id: int, p: Player) {
    exists t | t in rows :: t.id == id && ClaimedBy(t, p)
  }

  /** `p` holds every cell of `combo`. */
  predicate LineComplete(rows: seq<TileData>, combo: seq<int>, p: Player) {
    forall id | id in combo :: HoldsCell(rows, id, p)
  }

  /** The first of `WinCombinations[k..]` that `p` completes, or [] when
      there is none. */
  function GetWinCombosFrom(rows: seq<TileData>, p: Player, k: nat): (r: seq<int>)
    requires k <= |WinCombinations|
    ensures r == [] <==> forall i | k <= i < |WinCombinations| :: !LineComplete(rows, WinCombinations[i], p)
    ensures r != [] ==> exists i | k <= i < |WinCombinations| ::
      && r == WinCombinations[i] && LineComplete(rows, r, p)
      && forall j | k <= j < i :: !LineComplete(rows, WinCombinations[j], p)
    decreases |WinCombinations| - k
  {
    if k == |WinCombinations| then []
    else if LineComplete(rows, WinCombinations[k], p) then WinCombinations[k]
    else GetWinCombosFrom(rows, p, k + 1)
  }

  /** The first line of `WinCombinations`, in listed order, whose three
      cells `p` all holds; [] when `p` holds no line, and always for
      `Nobody`. */
  function GetWinCombos(rows: seq<TileData>, p: Player): (r: seq<int>)
    ensures r == [] <==> forall i | 0 <= i < |WinCombinations| :: !LineComplete(rows, WinCombinations[i], p)
    ensures r != [] ==> exists i | 0 <= i < |WinCombinations| ::
      && r == WinCombinations[i] && LineComplete(rows, r, p)
      && forall j | 0 <= j < i :: !LineComplete(rows, WinCombinations[j], p)
    ensures p == Nobody ==> r == []
  {
    assert forall i | 0 <= i < |WinCombinations| :: WinCombinations[i][0] in WinCombinations[i];
    GetWinCombosFrom(rows, p, 0)
  }

  /** The player `has_winner` reports: the Machine when it holds a line,
      otherwise the Human when they hold one, otherwise nobody. */
  function Winner(rows: seq<TileData>): Player {
    if GetWinCombos(rows, Machine) != [] then Machine
    else if GetWinCombos(rows, Human) != [] then Human
    else Nobody
  }

  /** The winner holds a line, and the Machine wins whenever it holds one,
      even when the Human also does. */
  lemma WinnerHoldsLine(rows: seq<TileData>)
    ensures Winner(rows) != Nobody <==>
      exists i | 0 <= i < |WinCombinations| ::
        LineComplete(rows, WinCombinations[i], Machine) || LineComplete(rows, WinCombinations[i], Human)
    ensures Winner(rows) == Machine <==>
      exists i | 0 <= i < |WinCombinations| :: LineComplete(rows, WinCombinations[i], Machine)
    ensures Winner(rows) != Nobody ==> LineComplete(rows, GetWinCombos(rows, Winner(rows)), Winner(rows))
  {
  }

  /** The highlight colour of a player's win. */
  function WinColorOf(p: Player): WinColor {
    match p
    case Machine => MachineWinColor
    case Human => HumanWinColor
    case Nobody => DefaultColor
  }

  /** `rows` with the win colour of `p` on every tile whose id is in `combo`
      and which `p` claims (the source's test, a taken cell clicked by that
      player, is `ClaimedBy`). */
  function Painted(rows: seq<TileData>, combo: seq<int>, p: Player): (r: seq<TileData>)
    ensures |r| == |rows|
  {
    seq(|rows|, i requires 0 <= i < |rows| =>
      if rows[i].id in combo && ClaimedBy(rows[i], p) then rows[i].(winColor := WinColorOf(p)) else rows[i])
  }

  /** Painting changes colours only, so it keeps every claim and hence
      every complete line and the winner; painting twice is painting once. */
  lemma PaintingKeepsClaims(rows: seq<TileData>, combo: seq<int>, p: Player)
    ensures forall i | 0 <= i < |rows| ::
      && Painted(rows, combo, p)[i].id == rows[i].id
      && forall q :: ClaimedBy(Painted(rows, combo, p)[i], q) == ClaimedBy(rows[i], q)
    ensures forall c, q :: LineComplete(Painted(rows, combo, p), c, q) == LineComplete(rows, c, q)
    ensures Winner(Painted(rows, combo, p)) == Winner(rows)
    ensures Painted(Painted(rows, combo, p), combo, p) == Painted(rows, combo, p)
  {
    var r := Painted(rows, combo, p);
    forall id, q ensures HoldsCell(r, id, q) == HoldsCell(rows, id, q) {
      if HoldsCell(rows, id, q) {
        var t :| t in rows && t.id == id && ClaimedBy(t, q);
        var i :| 0 <= i < |rows| && rows[i] == t;
        assert r[i] in r;
      }
      if HoldsCell(r, id, q) {
        var t :| t in r && t.id == id && ClaimedBy(t, q);
        var i :| 0 <= i < |r| && r[i] == t;
        assert rows[i] in rows;
      }
    }
    forall c, q ensures LineComplete(r, c, q) == LineComplete(rows, c, q) {
    }
  }

  /** After a win is painted, every cell of the winning line shows the
      winner's colour on some tile. */
  lemma PaintedLineShowsColour(rows: seq<TileData>)
    requires Winner(rows) != Nobody
    ensures forall id | id in GetWinCombos(rows, Winner(rows)) ::
      exists t | t in Painted(rows, GetWinCombos(rows, Winner(rows)), Winner(rows)) ::
        t.id == id && t.winColor == WinColorOf(Winner(rows))
  {
    var w := Winner(rows);
    var combo := GetWinCombos(rows, w);
    var r := Painted(rows, combo, w);
    forall id | id in combo
      ensures exists t | t in r :: t.id == id && t.winColor == WinColorOf(w)
    {
      assert HoldsCell(rows, id, w);
      var t :| t in rows && t.id == id && ClaimedBy(t, w);
      var i :| 0 <= i < |rows| && rows[i] == t;
      assert r[i] in r;
    }
  }

  /** Paints the tiles of `combo` claimed by `p`, one row at a time. */
  method PaintLine(tiles: VecModel<TileData>, combo: seq<int>, p: Player)
    modifies tiles
    ensures tiles.rows == Painted(old(tiles.rows), combo, p)
  {
    ghost var before := tiles.rows;
    for i := 0 to |tiles.rows|
      invariant |tiles.rows| == |before|
      invariant forall j | 0 <= j < i :: tiles.rows[j] == Painted(before, combo, p)[j]
      invariant forall j | i <= j < |before| :: tiles.rows[j] == before[j]
    {
      var tileData := tiles.rows[i];
      if tileData.id in combo && ClaimedBy(tileData, p) {
        tiles.SetRowData(i, tileData.(winColor := WinColorOf(p)));
      }
    }
  }

  /** Reports whether someone has won. The Machine's lines are looked at
      first; the winner's line is painted in the winner's colour and nothing
      else changes; without a winner the board is left as it was. */
  method HasWinner(tiles: VecModel<TileData>) returns (won: bool)
    modifies tiles
    ensures won <==> Winner(old(tiles.rows)) != Nobody
    ensures !won ==> tiles.rows == old(tiles.rows)
    ensures won ==> (tiles.rows ==
      Painted(old(tiles.rows), GetWinCombos(old(tiles.rows), Winner(old(tiles.rows))), Winner(old(tiles.rows))))
  {
    var winCombo := GetWinCombos(tiles.rows, Machine);
    if winCombo != [] {
      PaintLine(tiles, winCombo, Machine);
      return true;
    }
    winCombo := GetWinCombos(tiles.rows, Human);
    if winCombo != [] {
      PaintLine(tiles, winCombo, Human);
      return true;
    }
    return false;
  }

  // ---------------------------------------------------------------------
  // Opening move.

  /** The index of the first tile with id `id`, if any. */
  function FirstWithId(rows: seq<TileData>, id: int): (r: Option<nat>)
    ensures r.None? <==> forall i | 0 <= i < |rows| :: rows[i].id != id
    ensures r.Some? ==>
      && r.value < |rows| && rows[r.value].id == id
      && forall j | 0 <= j < r.value :: rows[j].id != id
    decreases |rows|
  {
    if rows == [] then None
    else if rows[0].id == id then Some(0)
    else match FirstWithId(rows[1..], id)
      case None => None
      case Some(i) => Some(i + 1)
  }

  /** The board after the Machine opens on cell `id`: the first tile with
      that id is taken and clicked by the Machine. */
  function OpenedOn(rows: seq<TileData>, id: int): (r: seq<TileData>)
    ensures |r| == |rows|
    ensures forall i | 0 <= i < |rows| && FirstWithId(rows, id) != Some(i) :: r[i] == rows[i]
    ensures FirstWithId(rows, id).Some? ==>
      var i := FirstWithId(rows, id).value;
      r[i] == rows[i].(machineClicked := true, empty := false)
  {
    match FirstWithId(rows, id)
    case None => rows
    case Some(i) => rows[i := rows[i].(machineClicked := true, empty := false)]
  }

  /** Clears the history, then the Machine opens on cell 4 or cell 0 (a
      coin toss): the opening is marked on the board and is the only entry
      of the history. */
  method RandomMachineStart(tiles: VecModel<TileData>, history: VecModel<Sequence>)
    modifies tiles, history
    ensures |history.rows| == 1 && history.rows[0].player == "M"
    ensures history.rows[0].id == 0 || history.rows[0].id == 4
    ensures tiles.rows == OpenedOn(old(tiles.rows), history.rows[0].id)
  {
    var i := |history.rows|;
    while i > 0
      invariant 0 <= i <= |old(history.rows)|
      invariant history.rows == old(history.rows)[..i]
      invariant tiles.rows == old(tiles.rows)
    {
      i := i - 1;
      history.Remove(i);
    }
    var coin: int :| 0 <= coin < 2;
    var startTileId := if coin == 1 then 4 else 0;
    var k := 0;
    while k < |tiles.rows| && tiles.rows[k].id != startTileId
      invariant 0 <= k <= |tiles.rows|
      invariant forall j | 0 <= j < k :: tiles.rows[j].id != startTileId
    {
      k := k + 1;
    }
    if k < |tiles.rows| {
      var tileData := tiles.rows[k];
      tiles.SetRowData(k, tileData.(machineClicked := true, empty := false));
    }
    history.Insert(0, Sequence(startTileId, "M"));
  }

  // ---------------------------------------------------------------------
  // The next move.

  /** A cell nobody has played. */
  predicate Free(t: TileData) {
    t.empty && !t.machineClicked && !t.humanClicked
  }

  /** The ids of the free cells, in board order. */
  function EmptyTileIds(rows: seq<TileData>): (ids: seq<int>)
    ensures |ids| <= |rows|
    ensures forall id :: id in ids <==> exists t | t in rows :: Free(t) && t.id == id
    decreases |rows|
  {
    if rows == [] then []
    else
      var rest := EmptyTileIds(rows[1..]);
      assert forall t | t in rows :: t == rows[0] || t in rows[1..];
      if Free(rows[0]) then [rows[0].id] + rest else rest
  }

  /** Some catalogue label whose sequence equals `state` up to order, or
      None when there is none. The map is scanned in an unspecified order,
      so which of several matching labels is found is left open. */
  method FindKey(steps: map<Label, seq<Tile>>, state: seq<Tile>) returns (found: Option<Label>)
    ensures found.Some? ==> found.value in steps && TilesEqualUnordered(steps[found.value], state)
    ensures found.None? ==> forall l | l in steps :: !TilesEqualUnordered(steps[l], state)
  {
    var unseen := steps.Keys;
    while unseen != {}
      invariant unseen <= steps.Keys
      invariant forall l | l in steps && l !in unseen :: !TilesEqualUnordered(steps[l], state)
      decreases |unseen|
    {
      var key :| key in unseen;
      if TilesEqualUnordered(steps[key], state) {
        return Some(key);
      }
      unseen := unseen - {key};
    }
    return None;
  }

  /** What the random move of the fallback produces from the extended state
      `next`: the catalogue sequence of some label that equals it up to
      order, or `next` itself when no label does. */
  predicate MatchOrSelf(next: seq<Tile>, r: seq<Tile>) {
    || (exists l | l in Catalogue() :: TilesEqualUnordered(Catalogue()[l], next) && r == Catalogue()[l])
    || ((forall l | l in Catalogue() :: !TilesEqualUnordered(Catalogue()[l], next)) && r == next)
  }

  /** The walks of `search_next_step` from every node in turn, until one
      reaches the node labelled `key`; there one of its successors is drawn
      at random, or none when it has none. */
  method ChooseSuccessor(graph: Graph, ghost keys: seq<Label>, ghost es: seq<(Label, Label)>, key: Label)
    returns (nextState: Option<Label>)
    requires Represents(graph, keys, es) && Distinct(keys) && key in keys
    ensures nextState.Some? <==> Successors(es, key) != []
    ensures nextState.Some? ==> nextState.value in Successors(es, key)
  {
    nextState := None;
    var start := 0;
    var done := false;
    while start < |graph.nodes| && !done
      invariant 0 <= start <= |graph.nodes|
      invariant !done ==> nextState.None? && forall j | 0 <= j < start :: graph.nodes[j] != key
      invariant done ==> (nextState.Some? <==> Successors(es, key) != [])
      invariant done && nextState.Some? ==> nextState.value in Successors(es, key)
    {
      // The walk from `start` visits `start` first and then nodes reachable
      // from it; which of those it reaches is not modelled.
      var reaches: bool :| (graph.nodes[start] == key ==> reaches) && (reaches ==> key in graph.nodes);
      if reaches {
        var nx :| 0 <= nx < |graph.nodes| && graph.nodes[nx] == key;
        NeighborsAreSuccessors(graph.edges, keys, es, nx);
        var neighbors := Neighbors(graph.edges, nx);
        if |neighbors| > 0 {
          var randomIndex :| 0 <= randomIndex < |neighbors|;
          nextState := Some(graph.nodes[neighbors[randomIndex]]);
        }
        done := true;
      }
      start := start + 1;
    }
    assert done by {
      var j :| 0 <= j < |keys| && keys[j] == key;
    }
  }

  /** The Machine's next position. The moves of the history are matched
      against the catalogue (the anchor); the anchor's node is found in the
      graph and one of its successors chosen at random (the target), whose
      catalogue sequence is returned. Without a target the Machine plays a
      random free cell: the result is the catalogue sequence that matches
      the extended moves, or those moves themselves, and [] when no cell is
      free. The board and the history are only read. */
  method SearchNextStep(tiles: VecModel<TileData>, history: VecModel<Sequence>)
    returns (r: seq<Tile>, ghost anchor: Option<Label>, ghost target: Option<Label>, ghost cell: int)
    ensures anchor.Some? ==>
      anchor.value in Catalogue() && TilesEqualUnordered(Catalogue()[anchor.value], BuildStepsFromModel(history.rows))
    ensures anchor.None? ==>
      forall l | l in Catalogue() :: !TilesEqualUnordered(Catalogue()[l], BuildStepsFromModel(history.rows))
    ensures target.Some? <==> anchor.Some? && Successors(Edges, anchor.value) != []
    ensures target.Some? ==>
      && target.value in Successors(Edges, anchor.value)
      && target.value in Catalogue() && r == Catalogue()[target.value]
    ensures target.None? ==> (r == [] <==> EmptyTileIds(tiles.rows) == [])
    ensures target.None? && r != [] ==>
      && cell in EmptyTileIds(tiles.rows)
      && MatchOrSelf(BuildStepsFromModel(history.rows) + [Tile(cell, Machine)], r)
  {
    var actualState := BuildStepsFromModel(history.rows);
    var stepsMap := InitStepsMap();
    var graph := BuildGraph();
    var foundedKey := FindKey(stepsMap, actualState);
    var nextState: Option<Label> := None;
    anchor, target, cell := foundedKey, None, 0;

    if foundedKey.Some? {
      KeysDistinct();
      CatalogueIsKeyList();
      assert foundedKey.value in Keys by {
        assert foundedKey.value in set l | l in Keys;
      }
      nextState := ChooseSuccessor(graph, Keys, Edges, foundedKey.value);
    }
    target := nextState;

    if nextState.Some? {
      var key := nextState.value;
      SuccessorsCatalogued();
      if key in stepsMap {
        return stepsMap[key], anchor, target, cell;
      }
    }

    var emptyTileIds := EmptyTileIds(tiles.rows);
    if emptyTileIds == [] {
      return [], anchor, target, cell;
    }
    var i :| 0 <= i < |emptyTileIds|;
    var rndTileId := emptyTileIds[i];
    cell := rndTileId;
    actualState := actualState + [Tile(rndTileId, Machine)];
    var matched := FindKey(stepsMap, actualState);
    if matched.Some? {
      r := stepsMap[matched.value];
    } else {
      r := actualState;
    }
  }
}
