# Tic-tac-toe machine opponent, modelled in Dafny

This project models the move-selection engine of the tic-tac-toe game in
K3cs1/ttt-rs. The engine has three parts.

- **Move catalogue and win graph** (`src/win_graph.rs`). The catalogue is a
  fixed table of 50 labelled move sequences. A label is `"<ply>_<variant>"`,
  and each sequence is a list of moves `Tile{field_id, player}`. The win graph
  has one node per label and 42 directed edges from a label to its scripted
  "one move later" labels.
- **Engine** (`src/game_logic.rs`). It reads the move history, finds a
  catalogue entry equal to it up to order (the anchor) and walks the graph to
  one of the anchor's successors (the target). It returns the target's
  sequence. Without a target it plays a random free cell and matches the
  extended state against the catalogue again. The same file detects a win,
  highlights the winning line and opens the game on cell 0 or cell 4.
- **Earlier draft of the engine** (`src/lib.rs`). It has its own copy of the
  catalogue and graph. It reads the history off the board and uses a one-way
  comparison. Its successor choice uses its random draw only in a log
  message, and it has no fallback.

Modules:

- `Board`: players, moves, the board's tile records, history entries, labels,
  and a list model of the user interface (`VecModel`).
- `Collections`: facts about filling a map entry by entry and about sets of
  list elements.
- `Graphs`: the graph as node labels plus index pairs, and out-neighbour
  enumeration in `petgraph` order (the last-added edge first).
- `WinGraph`: the catalogue and the graph, with their proved invariants.
- `GameLogic`: the engine.
- `Draft`: the earlier draft.

Randomness is a nondeterministic choice from the candidate list, so every
contract holds for every outcome of the draw. The anchor scans go over a
`HashMap` in unspecified order; they are modelled as "some matching label".
The labels "4_2" and "4_4" hold the same sequence, so which of them is found
is left open. Each node in turn is the start of a breadth-first walk, and
every walk visits its start first. The current engine stops at the first walk
that reaches the anchor; the draft runs them all. Beyond that, the model does
not say which nodes a walk reaches.

The edges are meant to lead from a sequence to the same moves plus one. The
code does not keep that promise for four edges. The
two edges out of the placeholder root "0_0" break it, and so do "3_2"→"4_4"
and "7_4"→"8_2". The model follows the code: `WinGraph.EdgesExtendByOneMove`
proves the extension property for exactly the other 38 edges and its failure
for these four. A cell is meant to be free when neither player clicked it.
The code additionally requires the tile's `empty` flag, and the model follows
the code (`GameLogic.EmptyTileIds`).

## Model

| member | source | states |
|---|---|---|
| WinGraph.InitStepsMap | src/win_graph.rs:8-496 | returns the map obtained by inserting the 50 table entries in order, the later of two equal labels winning |
| WinGraph.CatalogueIsKeyList | src/win_graph.rs:11-504 | the catalogue's labels are exactly the 50 keys of the graph's key list, so it has 50 labels |
| WinGraph.KeysDistinct | src/win_graph.rs:498-504 | the graph's key list repeats no label, and neither do the catalogue table's labels |
| WinGraph.CatalogueLookup | src/win_graph.rs:11-488 | a label is in the catalogue exactly when it is "p_v" with v within the table of ply p, and then it maps to that table entry |
| WinGraph.CatalogueShape | src/win_graph.rs:12-487 | "0_0" holds only the placeholder move; a ply-n entry holds n moves, all in cells 0..8, with the Machine first and the players alternating; every entry except "7_3" and "7_6" plays no cell twice |
| WinGraph.RootEntry | src/win_graph.rs:12 | "0_0" maps to the single placeholder move (cell -1, played by nobody), not to an empty list |
| WinGraph.KnownDefects | src/win_graph.rs:85-379 | "7_3" plays cell 4 at its first and seventh move, "7_6" plays cell 5 at its fifth and seventh move, and "4_2" and "4_4" hold the same sequence |
| WinGraph.BuildGraphFrom | src/win_graph.rs:505-558 | given endpoints that are all keys, yields one node per key in key order and edge k joining the nodes labelled by the k-th listed pair |
| WinGraph.BuildGraph | src/win_graph.rs:497-560 | the graph has the 50 keys as nodes in order and represents the 42 listed edges |
| WinGraph.EdgeEndpointsDeclared | src/win_graph.rs:509-558 | every edge endpoint is a key and a catalogue label, so the `expect("Missing node")` lookups always succeed |
| WinGraph.EdgesAdvanceOnePly | src/win_graph.rs:509-552 | every edge goes from a ply-n label to a ply-(n+1) label; no edge leaves ply 5, none enters ply 6 and none leaves "2_2" |
| WinGraph.EdgesExtendByOneMove | src/win_graph.rs:11-552 | an edge's target sequence is its source sequence plus one move exactly when the edge is not one of 0_0→1_0, 0_0→1_1, 3_2→4_4 and 7_4→8_2 |
| WinGraph.DeadEnd | src/win_graph.rs:509-552 | "2_2" is a node without successors |
| WinGraph.SuccessorsCatalogued | src/win_graph.rs:509-552 | every successor of every label is a catalogue label |
| Graphs.Neighbors | src/game_logic.rs:86 | the out-neighbours of a node in petgraph's order; at most one per edge |
| Graphs.NeighborsSpec | src/game_logic.rs:86 | x is enumerated as a neighbour of n exactly when some edge goes from n to x |
| Graphs.NeighborsNewestFirst | src/lib.rs:660-673 | every edge leaving a node is enumerated, and of two such edges the later-added one's target comes first |
| Graphs.SuccessorsSpec | src/game_logic.rs:86 | x is enumerated as a successor of l exactly when some listed edge goes from l to x |
| Graphs.SuccessorsNonEmpty | src/game_logic.rs:86-89 | l has a successor exactly when some listed edge leaves l |
| Graphs.NeighborsAreSuccessors | src/game_logic.rs:86 | read through the node labels, a node's neighbours are its label's successors, in the same order |
| Graphs.LastSuccessorIsFirstEdge | src/lib.rs:669-673 | the last successor enumerated is the target of the first listed edge leaving the label |
| GameLogic.BuildStepsFromModel | src/game_logic.rs:136-147 | yields at most one move per history entry, and no move by nobody |
| GameLogic.BuildStepsAppend | src/game_logic.rs:136-147 | reading a history in two parts reads each part in turn, so moves keep history order |
| GameLogic.BuildStepsSkipsUntagged | src/game_logic.rs:139-143 | an entry tagged other than "H" or "M" is dropped without trace |
| GameLogic.BuildStepsTagged | src/game_logic.rs:139-143 | for a history of "H"/"M" entries, the i-th move is the i-th entry's cell by the Human for "H" and by the Machine for "M" |
| GameLogic.TilesEqualUnordered | src/game_logic.rs:150-154 | holds exactly when the lists have the same length and a move occurs in one exactly when it occurs in the other |
| GameLogic.TilesEqualUnorderedIsEquivalence | src/game_logic.rs:150-154 | equal length plus equal move sets is reflexive, symmetric and transitive |
| GameLogic.PermutationsEqualUnordered | src/game_logic.rs:150-154 | lists that are permutations of each other compare equal |
| GameLogic.EqualUnorderedIsNotPermutation | src/game_logic.rs:150-154 | [x, x, y] and [x, y, y] compare equal without being permutations of each other |
| GameLogic.EqualUnorderedKeepsDistinct | src/game_logic.rs:150-154 | a list that compares equal to a list of distinct moves has distinct moves |
| GameLogic.DefectiveEntriesNeverMatch | src/game_logic.rs:72-78 | "7_3" and "7_6" never compare equal to a history that repeats no move |
| GameLogic.WinCombinationsAreLines | src/game_logic.rs:45-54 | the eight winning combinations are exactly the three rows, three columns and two diagonals, each listed once |
| GameLogic.ClaimedBy | src/game_logic.rs:159-166 | a tile is claimed by a player exactly when it is taken and that player (Machine or Human) clicked it; Nobody claims nothing |
| GameLogic.GetWinCombosFrom | src/game_logic.rs:168-178 | returns the first remaining line the player completes, in listed order, or [] exactly when there is none |
| GameLogic.GetWinCombos | src/game_logic.rs:157-179 | returns the first line of the eight, in listed order, whose three cells the player all holds on taken tiles; [] exactly when there is none, and always for Nobody |
| GameLogic.WinnerHoldsLine | src/game_logic.rs:182-203 | there is a winner exactly when either player holds a line, the Machine is the winner whenever it holds one, and the winner holds the reported line |
| GameLogic.PaintingKeepsClaims | src/game_logic.rs:189-198 | recolouring keeps every id and claim, hence every complete line and the winner, and recolouring twice is recolouring once |
| GameLogic.PaintedLineShowsColour | src/game_logic.rs:187-199 | after a win is painted, each cell of the winning line has a tile in the winner's colour |
| GameLogic.PaintLine | src/game_logic.rs:189-198 | recolours exactly the tiles whose id is in the line and which the player claims |
| GameLogic.HasWinner | src/game_logic.rs:182-203 | returns true exactly when there is a winner (the Machine checked first); then only the winner's line tiles are recoloured; otherwise the board is unchanged |
| GameLogic.FirstWithId | src/game_logic.rs:220-224 | finds the first tile with the id, or none exactly when no tile has it |
| GameLogic.OpenedOn | src/game_logic.rs:220-228 | the first tile with the id becomes taken and Machine-clicked; every other tile is unchanged |
| GameLogic.RandomMachineStart | src/game_logic.rs:206-238 | the history becomes exactly one "M" entry for cell 0 or 4, and the board is opened on that cell |
| GameLogic.EmptyTileIds | src/game_logic.rs:109-113 | an id is listed exactly when some tile with that id is empty and clicked by neither player |
| GameLogic.FindKey | src/game_logic.rs:72-78 | returns a label whose sequence compares equal to the state, or none exactly when no label's does |
| GameLogic.ChooseSuccessor | src/game_logic.rs:81-97 | some walk reaches the anchor's node; a target is chosen exactly when the anchor has a successor, and it is one of them |
| GameLogic.SearchNextStep | src/game_logic.rs:58-133 | reads only; the anchor matches the history or no label does; with a target, the result is the target's catalogue sequence; otherwise [] exactly when no cell is free, else the catalogue match of the history plus a Machine move on a free cell, or that extended history itself |
| Draft.InitStepsMap | src/lib.rs:46-535 | returns the map obtained by the draft's 51 inserts in order |
| Draft.DraftEntryChunksAgree | src/lib.rs:46-535 | the draft's table is the current one, with "4_5" inserted a second time right after the first |
| Draft.DraftCatalogueIsCatalogue | src/lib.rs:148-165 | the second insert of "4_5" changes nothing: the draft catalogue is the current one, with 50 labels |
| Draft.DraftKnownDefects | src/lib.rs:121-425 | the draft catalogue has the same defects: "4_2" equals "4_4", "7_3" repeats cell 4, "7_6" repeats cell 5 |
| Draft.DraftGraphAgrees | src/lib.rs:537-636 | the draft adds the same nodes and edges in the same order as the current graph |
| Draft.BuildGraph | src/lib.rs:537-636 | the draft graph represents the draft's nodes and edges |
| Draft.DraftGraphShape | src/lib.rs:537-633 | one node per catalogue label, and every edge joins catalogue labels of consecutive plies |
| Draft.DraftSuccessorsCatalogued | src/lib.rs:682-688 | every successor is a catalogue label, so the `unwrap()` on the lookup never panics |
| Draft.BoardStepsAppend | src/lib.rs:697-709 | reading two parts of the board reads each in turn, so moves come in board order |
| Draft.BoardStepsMembers | src/lib.rs:697-709 | a Human or Machine move on a cell is read exactly when a tile with that id has the matching click, and no move is by nobody |
| Draft.BuildStepsFromModel | src/lib.rs:697-709 | pushes, tile by tile, a Human move and then a Machine move for each set click |
| Draft.VecTileCompare | src/lib.rs:711-717 | holds exactly when the lists have the same length and every move of the second occurs in the first |
| Draft.VecTileCompareVersusEqualUnordered | src/lib.rs:711-717 | the one-way comparison holds whenever the two-way one does, and they agree when the second list repeats no move |
| Draft.VecTileCompareNotSymmetric | src/lib.rs:711-717 | the one-way comparison is reflexive, but [x, y] matches [x, x] while [x, x] does not match [x, y] |
| Draft.FindKey | src/lib.rs:645-651 | returns a label whose sequence matches the state one way, or none exactly when no label's does |
| Draft.LastSuccessorWalk | src/lib.rs:653-680 | ends on the last successor enumerated exactly when the anchor has one, whatever the random index |
| Draft.SearchNextStep | src/lib.rs:638-695 | reads only; the anchor matches the board or no label does; the result is the catalogue sequence of the anchor's last successor, or [] when there is no anchor or no successor |
| Draft.DraftTakesFirstListedEdge | src/lib.rs:590-633 | the draft always answers with the target of the first listed edge leaving the anchor |
| Draft.DraftAnswerToThreeTwo | src/lib.rs:606-607 | from "3_2" the draft always answers "4_4", which does not extend "3_2", although "4_5" is also a successor |

## Left out

- The random number generator: each draw is a nondeterministic choice from the candidate range, and uniformity is not modelled.
- `petgraph` internals: the graph is node labels plus index pairs. A breadth-first walk is modelled only as far as the engine relies on it: a walk visits its start, and it reaches a given label only if that label is a node. Which other nodes it reaches is not modelled.
- `HashMap` iteration order: the anchor scans return some matching label. The set-based comparison inside `tiles_equal_unordered` and `vec_tile_compare` is modelled on Dafny sets.
- Logging (`trace!`, `info!`, `warn!`).
- The concrete `Brush`/`Color` values: a win colour is one of three tags.
- `src/main.rs` as a whole: window creation, the UI callbacks, syncing models with the window, and process exit. It is not part of this model.
- Slint's generated types, `Rc`, `SharedString` and change notifications of `VecModel`: a `VecModel` is a class over a sequence of rows.
- Field ids are unbounded integers rather than `i32`; the code does no arithmetic on them.
- Draft.InitStepsMap: the draft's 51 straight-line inserts are modelled as one loop over the same 51 entries in the same order.
- Draft.SearchNextStep: the draft runs its walks even when no anchor was found. They assign nothing then, so the model skips them.
