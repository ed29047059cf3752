/** The move catalogue and the state graph of `win_graph.rs`: a fixed table
    of 50 labelled move sequences ("<ply>_<variant>") and a fixed list of 42
    directed edges from a label to its scripted "one move later" labels. The
    table is split by ply only so that the verifier can index it quickly; the
    entries appear in the order the source lists them. */
module WinGraph {
  import opened Board
  import opened Collections
  import opened Graphs

  const EntriesPly0: seq<(Label, seq<Tile>)> := [
    ("0_0", [InitTile])
  ]

  const EntriesPly1: seq<(Label, seq<Tile>)> := [
    ("1_0", [Tile(4, Machine)]),
    ("1_1", [Tile(0, Machine)])
  ]

  const EntriesPly2: seq<(Label, seq<Tile>)> := [
    ("2_0", [Tile(4, Machine), Tile(1, Human)]),
    ("2_1", [Tile(4, Machine), Tile(0, Human)]),
    ("2_2", [Tile(0, Machine), Tile(1, Human)]),
    ("2_3", [Tile(0, Machine), Tile(2, Human)]),
    ("2_4", [Tile(0, Machine), Tile(4, Human)])
  ]

  const EntriesPly3: seq<(Label, seq<Tile>)> := [
    ("3_0", [Tile(4, Machine), Tile(1, Human), Tile(6, Machine)]),
    ("3_1", [Tile(4, Machine), Tile(0, Human), Tile(2, Machine)]),
    ("3_2", [Tile(0, Machine), Tile(2, Human), Tile(6, Machine)]),
    ("3_3", [Tile(0, Machine), Tile(4, Human), Tile(8, Machine)])
  ]

  const EntriesPly4: seq<(Label, seq<Tile>)> := [
    ("4_0", [Tile(4, Machine), Tile(1, Human), Tile(6, Machine), Tile(0, Human)]),
    ("4_1", [Tile(4, Machine), Tile(1, Human), Tile(6, Machine), Tile(2, Human)]),
    ("4_2", [Tile(4, Machine), Tile(0, Human), Tile(2, Machine), Tile(3, Human)]),
    ("4_3", [Tile(4, Machine), Tile(0, Human), Tile(2, Machine), Tile(6, Human)]),
    ("4_4", [Tile(4, Machine), Tile(0, Human), Tile(2, Machine), Tile(3, Human)]),
    ("4_5", [Tile(0, Machine), Tile(2, Human), Tile(6, Machine), Tile(1, Human)]),
    ("4_6", [Tile(0, Machine), Tile(4, Human), Tile(8, Machine), Tile(3, Human)]),
    ("4_7", [Tile(0, Machine), Tile(4, Human), Tile(8, Machine), Tile(6, Human)])
  ]

  const EntriesPly5: seq<(Label, seq<Tile>)> := [
    ("5_0", [Tile(4, Machine), Tile(1, Human), Tile(6, Machine), Tile(0, Human), Tile(2, Machine)]),
    ("5_1", [Tile(4, Machine), Tile(1, Human), Tile(6, Machine), Tile(2, Human), Tile(0, Machine)]),
    ("5_2", [Tile(4, Machine), Tile(0, Human), Tile(2, Machine), Tile(3, Human), Tile(6, Machine)]),
    ("5_3", [Tile(4, Machine), Tile(0, Human), Tile(2, Machine), Tile(6, Human), Tile(3, Machine)]),
    ("5_4", [Tile(4, Machine), Tile(0, Human), Tile(2, Machine), Tile(3, Human), Tile(8, Machine)]),
    ("5_5", [Tile(0, Machine), Tile(2, Human), Tile(6, Machine), Tile(1, Human), Tile(3, Machine)]),
    ("5_6", [Tile(0, Machine), Tile(4, Human), Tile(8, Machine), Tile(3, Human), Tile(5, Machine)]),
    ("5_7", [Tile(0, Machine), Tile(4, Human), Tile(8, Machine), Tile(6, Human), Tile(2, Machine)])
  ]

  const EntriesPly6: seq<(Label, seq<Tile>)> := [
    ("6_0", [Tile(4, Machine), Tile(1, Human), Tile(6, Machine), Tile(2, Human), Tile(0, Machine), Tile(8, Human)]),
    ("6_1", [Tile(4, Machine), Tile(0, Human), Tile(2, Machine), Tile(6, Human), Tile(3, Machine), Tile(5, Human)]),
    ("6_2", [Tile(4, Machine), Tile(0, Human), Tile(2, Machine), Tile(6, Human), Tile(3, Machine), Tile(7, Human)]),
    ("6_3", [Tile(4, Machine), Tile(0, Human), Tile(2, Machine), Tile(3, Human), Tile(8, Machine), Tile(7, Human)]),
    ("6_4", [Tile(0, Machine), Tile(4, Human), Tile(8, Machine), Tile(3, Human), Tile(5, Machine), Tile(2, Human)]),
    ("6_5", [Tile(0, Machine), Tile(4, Human), Tile(8, Machine), Tile(3, Human), Tile(5, Machine), Tile(6, Human)]),
    ("6_6", [Tile(0, Machine), Tile(4, Human), Tile(8, Machine), Tile(3, Human), Tile(5, Machine), Tile(1, Human)])
  ]

  const EntriesPly7: seq<(Label, seq<Tile>)> := [
    ("7_0", [Tile(4, Machine), Tile(1, Human), Tile(6, Machine), Tile(2, Human), Tile(0, Machine), Tile(8, Human), Tile(3, Machine)]),
    ("7_1", [Tile(4, Machine), Tile(0, Human), Tile(2, Machine), Tile(6, Human), Tile(3, Machine), Tile(5, Human), Tile(1, Machine)]),
    ("7_2", [Tile(4, Machine), Tile(0, Human), Tile(2, Machine), Tile(6, Human), Tile(3, Machine), Tile(7, Human), Tile(5, Machine)]),
    ("7_3", [Tile(4, Machine), Tile(0, Human), Tile(2, Machine), Tile(3, Human), Tile(8, Machine), Tile(7, Human), Tile(4, Machine)]),
    ("7_4", [Tile(0, Machine), Tile(4, Human), Tile(8, Machine), Tile(3, Human), Tile(5, Machine), Tile(2, Human), Tile(6, Machine)]),
    ("7_5", [Tile(0, Machine), Tile(4, Human), Tile(8, Machine), Tile(3, Human), Tile(5, Machine), Tile(6, Human), Tile(2, Machine)]),
    ("7_6", [Tile(0, Machine), Tile(4, Human), Tile(8, Machine), Tile(3, Human), Tile(5, Machine), Tile(1, Human), Tile(5, Machine)])
  ]

  const EntriesPly8: seq<(Label, seq<Tile>)> := [
    ("8_0", [Tile(4, Machine), Tile(0, Human), Tile(2, Machine), Tile(6, Human), Tile(3, Machine), Tile(5, Human), Tile(1, Machine), Tile(8, Human)]),
    ("8_1", [Tile(4, Machine), Tile(0, Human), Tile(2, Machine), Tile(6, Human), Tile(3, Machine), Tile(5, Human), Tile(1, Machine), Tile(7, Human)]),
    ("8_2", [Tile(0, Machine), Tile(4, Human), Tile(8, Machine), Tile(3, Human), Tile(5, Machine), Tile(6, Human), Tile(2, Machine), Tile(1, Human)]),
    ("8_3", [Tile(0, Machine), Tile(4, Human), Tile(8, Machine), Tile(3, Human), Tile(5, Machine), Tile(2, Human), Tile(6, Machine), Tile(7, Human)])
  ]

  const EntriesPly9: seq<(Label, seq<Tile>)> := [
    ("9_0", [Tile(4, Machine), Tile(0, Human), Tile(2, Machine), Tile(6, Human), Tile(3, Machine), Tile(5, Human), Tile(1, Machine), Tile(8, Human), Tile(7, Machine)]),
    ("9_1", [Tile(4, Machine), Tile(0, Human), Tile(2, Machine), Tile(6, Human), Tile(3, Machine), Tile(5, Human), Tile(1, Machine), Tile(7, Human), Tile(8, Machine)]),
    ("9_2", [Tile(0, Machine), Tile(4, Human), Tile(8, Machine), Tile(3, Human), Tile(5, Machine), Tile(6, Human), Tile(2, Machine), Tile(1, Human), Tile(7, Machine)]),
    ("9_3", [Tile(0, Machine), Tile(4, Human), Tile(8, Machine), Tile(3, Human), Tile(5, Machine), Tile(2, Human), Tile(6, Machine), Tile(7, Human), Tile(1, Machine)])
  ]

  const Entries: seq<(Label, seq<Tile>)> :=
    EntriesPly0 + EntriesPly1 + EntriesPly2 + EntriesPly3 + EntriesPly4 + EntriesPly5 + EntriesPly6 + EntriesPly7 + EntriesPly8 + EntriesPly9

  const KeysPly0: seq<Label> := ["0_0"]
  const KeysPly1: seq<Label> := ["1_0", "1_1"]
  const KeysPly2: seq<Label> := ["2_0", "2_1", "2_2", "2_3", "2_4"]
  const KeysPly3: seq<Label> := ["3_0", "3_1", "3_2", "3_3"]
  const KeysPly4: seq<Label> := ["4_0", "4_1", "4_2", "4_3", "4_4", "4_5", "4_6", "4_7"]
  const KeysPly5: seq<Label> := ["5_0", "5_1", "5_2", "5_3", "5_4", "5_5", "5_6", "5_7"]
  const KeysPly6: seq<Label> := ["6_0", "6_1", "6_2", "6_3", "6_4", "6_5", "6_6"]
  const KeysPly7: seq<Label> := ["7_0", "7_1", "7_2", "7_3", "7_4", "7_5", "7_6"]
  const KeysPly8: seq<Label> := ["8_0", "8_1", "8_2", "8_3"]
  const KeysPly9: seq<Label> := ["9_0", "9_1", "9_2", "9_3"]
  const Keys: seq<Label> :=
    KeysPly0 + KeysPly1 + KeysPly2 + KeysPly3 + KeysPly4 + KeysPly5 + KeysPly6 + KeysPly7 + KeysPly8 + KeysPly9

  const EdgesFromPly0: seq<(Label, Label)> := [
    ("0_0", "1_0"),
    ("0_0", "1_1")
  ]

  const EdgesFromPly1: seq<(Label, Label)> := [
    ("1_0", "2_0"),
    ("1_0", "2_1"),
    ("1_1", "2_2"),
    ("1_1", "2_3"),
    ("1_1", "2_4")
  ]

  const EdgesFromPly2: seq<(Label, Label)> := [
    ("2_0", "3_0"),
    ("2_1", "3_1"),
    ("2_3", "3_2"),
    ("2_4", "3_3")
  ]

  const EdgesFromPly3: seq<(Label, Label)> := [
    ("3_0", "4_0"),
    ("3_0", "4_1"),
    ("3_1", "4_2"),
    ("3_1", "4_3"),
    ("3_2", "4_4"),
    ("3_2", "4_5"),
    ("3_3", "4_6"),
    ("3_3", "4_7")
  ]

  const EdgesFromPly4: seq<(Label, Label)> := [
    ("4_0", "5_0"),
    ("4_1", "5_1"),
    ("4_2", "5_2"),
    ("4_3", "5_3"),
    ("4_4", "5_4"),
    ("4_5", "5_5"),
    ("4_6", "5_6"),
    ("4_7", "5_7")
  ]

  const EdgesFromPly6: seq<(Label, Label)> := [
    ("6_0", "7_0"),
    ("6_1", "7_1"),
    ("6_2", "7_2"),
    ("6_3", "7_3"),
    ("6_4", "7_4"),
    ("6_5", "7_5"),
    ("6_6", "7_6")
  ]

  const EdgesFromPly7: seq<(Label, Label)> := [
    ("7_1", "8_0"),
    ("7_1", "8_1"),
    ("7_4", "8_2"),
    ("7_4", "8_3")
  ]

  const EdgesFromPly8: seq<(Label, Label)> := [
    ("8_0", "9_0"),
    ("8_1", "9_1"),
    ("8_2", "9_2"),
    ("8_3", "9_3")
  ]

  const Edges: seq<(Label, Label)> :=
    EdgesFromPly0 + EdgesFromPly1 + EdgesFromPly2 + EdgesFromPly3 + EdgesFromPly4 + EdgesFromPly6 + EdgesFromPly7 + EdgesFromPly8

  /** The catalogue as `init_steps_map` returns it: the entries inserted in
      order into an empty map (a repeated label would keep its last value). */
  function Catalogue(): map<Label, seq<Tile>> {
    InsertAll(map[], Entries)
  }

  /** `init_steps_map`: fills a map from the entry table in a loop. */
  method InitStepsMap() returns (stepsMap: map<Label, seq<Tile>>)
    ensures stepsMap == Catalogue()
  {
    stepsMap := InsertEach(Entries);
  }

  /** Adds one node per label, in order, remembering each label's node index
      (a later node with the same label would take its place in the index),
      then adds one edge per labelled pair between the indexed nodes. The
      source aborts with "Missing node" when an endpoint is not a node; the
      precondition states that this never happens. */
  method BuildGraphFrom(keys: seq<Label>, es: seq<(Label, Label)>) returns (g: Graph)
    requires forall k | 0 <= k < |es| :: es[k].0 in keys && es[k].1 in keys
    ensures Represents(g, keys, es)
  {
    var nodes: seq<Label> := [];
    var index: map<Label, nat> := map[];
    for i := 0 to |keys|
      invariant nodes == keys[..i]
      invariant index.Keys == set j | 0 <= j < i :: keys[j]
      invariant forall l | l in index :: index[l] < i && keys[index[l]] == l
    {
      index := index[keys[i] := |nodes|];
      nodes := nodes + [keys[i]];
    }
    assert nodes == keys;
    var edges: seq<(nat, nat)> := [];
    for k := 0 to |es|
      invariant EdgesRepresent(edges, keys, es[..k])
    {
      var (from, to) := es[k];
      assert from in index && to in index by {
        var a :| 0 <= a < |keys| && keys[a] == from;
        var b :| 0 <= b < |keys| && keys[b] == to;
        assert keys[a] in set j | 0 <= j < |keys| :: keys[j];
        assert keys[b] in set j | 0 <= j < |keys| :: keys[j];
      }
      edges := edges + [(index[from], index[to])];
    }
    assert es[..|es|] == es;
    g := Graph(nodes, edges);
  }

  /** The win graph: the 50 catalogue labels as nodes and the listed moves
      as edges. */
  method BuildGraph() returns (g: Graph)
    ensures Represents(g, Keys, Edges)
  {
    EdgeEndpointsDeclared();
    g := BuildGraphFrom(Keys, Edges);
  }

  // ---------------------------------------------------------------------
  // Positions: the entry of ply p and variant v is the v-th of its ply.

  function PlyEntries(p: nat): seq<(Label, seq<Tile>)>
    requires p < 10
  {
    match p
    case 0 => EntriesPly0
    case 1 => EntriesPly1
    case 2 => EntriesPly2
    case 3 => EntriesPly3
    case 4 => EntriesPly4
    case 5 => EntriesPly5
    case 6 => EntriesPly6
    case 7 => EntriesPly7
    case 8 => EntriesPly8
    case _ => EntriesPly9
  }

  /** A well-formed label whose variant is within its ply's table. */
  predicate Declared(l: Label) {
    WellFormedLabel(l) && Variant(l) < |PlyEntries(Ply(l))|
  }

  /** Every move of `s` is in 0..8, the first by the Machine, then the
      players take turns. */
  predicate Alternates(s: seq<Tile>) {
    forall j | 0 <= j < |s| ::
      && 0 <= s[j].fieldId <= 8
      && s[j].player == (if j % 2 == 0 then Machine else Human)
  }

  /** No cell is played twice in `s`. */
  predicate CellsDistinct(s: seq<Tile>) {
    forall j, k | 0 <= j < k < |s| :: s[j].fieldId != s[k].fieldId
  }

  /** What is true of the v-th entry `e` of ply p. */
  predicate EntryFacts(p: nat, v: nat, e: (Label, seq<Tile>))
    requires p < 10 && v < 10
  {
    && e.0 == MakeLabel(p, v)
    && (p == 0 ==> e.1 == [InitTile])
    && (p > 0 ==> |e.1| == p && Alternates(e.1))
    && ((p, v) != (7, 3) && (p, v) != (7, 6) ==> CellsDistinct(e.1))
  }

  lemma ChunkFacts(p: nat)
    requires p < 10
    ensures |PlyEntries(p)| <= 8
    ensures forall v | 0 <= v < |PlyEntries(p)| :: EntryFacts(p, v, PlyEntries(p)[v])
  {
    match p
    case 0 => ChunkFacts0();
    case 1 => ChunkFacts1();
    case 2 => ChunkFacts2();
    case 3 => ChunkFacts3();
    case 4 => ChunkFacts4();
    case 5 => ChunkFacts5();
    case 6 => ChunkFacts6();
    case 7 => ChunkFacts7();
    case 8 => ChunkFacts8();
    case _ => ChunkFacts9();
  }

  lemma ChunkFacts0()
    ensures forall v | 0 <= v < |EntriesPly0| :: EntryFacts(0, v, EntriesPly0[v])
  {
  }

  lemma ChunkFacts1()
    ensures forall v | 0 <= v < |EntriesPly1| :: EntryFacts(1, v, EntriesPly1[v])
  {
  }

  lemma ChunkFacts2()
    ensures forall v | 0 <= v < |EntriesPly2| :: EntryFacts(2, v, EntriesPly2[v])
  {
  }

  lemma ChunkFacts3()
    ensures forall v | 0 <= v < |EntriesPly3| :: EntryFacts(3, v, EntriesPly3[v])
  {
  }

  lemma ChunkFacts4()
    ensures forall v | 0 <= v < |EntriesPly4| :: EntryFacts(4, v, EntriesPly4[v])
  {
  }

  lemma ChunkFacts5()
    ensures forall v | 0 <= v < |EntriesPly5| :: EntryFacts(5, v, EntriesPly5[v])
  {
  }

  lemma ChunkFacts6()
    ensures forall v | 0 <= v < |EntriesPly6| :: EntryFacts(6, v, EntriesPly6[v])
  {
  }

  lemma ChunkFacts7()
    ensures forall v | 0 <= v < |EntriesPly7| :: EntryFacts(7, v, EntriesPly7[v])
  {
  }

  lemma ChunkFacts8()
    ensures forall v | 0 <= v < |EntriesPly8| :: EntryFacts(8, v, EntriesPly8[v])
  {
  }

  lemma ChunkFacts9()
    ensures forall v | 0 <= v < |EntriesPly9| :: EntryFacts(9, v, EntriesPly9[v])
  {
  }

  /** Where ply p's table starts in the whole entry list. */
  function Offset(p: nat): nat
    requires p < 10
  {
    [0, 1, 3, 8, 12, 20, 28, 35, 42, 46][p]
  }

  /** The ply whose table holds entry i. */
  function PlyAt(i: nat): (p: nat)
    ensures p < 10
  {
    if i < 1 then 0 else if i < 3 then 1 else if i < 8 then 2 else if i < 12 then 3
    else if i < 20 then 4 else if i < 28 then 5 else if i < 35 then 6
    else if i < 42 then 7 else if i < 46 then 8 else 9
  }

  lemma ChunkInEntries(p: nat, v: nat)
    requires p < 10 && v < |PlyEntries(p)|
    ensures Offset(p) + v < |Entries| && Entries[Offset(p) + v] == PlyEntries(p)[v]
  {
  }

  /** Entry i of the table is the entry its label names: its label is
      declared and i is that label's position. */
  lemma EntriesIndexed()
    ensures |Entries| == 50
    ensures forall i | 0 <= i < |Entries| ::
      && Declared(Entries[i].0)
      && i == Offset(Ply(Entries[i].0)) + Variant(Entries[i].0)
      && PlyEntries(Ply(Entries[i].0))[Variant(Entries[i].0)] == Entries[i]
  {
    forall i | 0 <= i < |Entries|
      ensures && Declared(Entries[i].0)
              && i == Offset(Ply(Entries[i].0)) + Variant(Entries[i].0)
              && PlyEntries(Ply(Entries[i].0))[Variant(Entries[i].0)] == Entries[i]
    {
      var p := PlyAt(i);
      var v := i - Offset(p);
      ChunkInEntries(p, v);
      ChunkFacts(p);
      assert EntryFacts(p, v, PlyEntries(p)[v]);
    }
  }

  function PlyKeys(p: nat): seq<Label>
    requires p < 10
  {
    match p
    case 0 => KeysPly0
    case 1 => KeysPly1
    case 2 => KeysPly2
    case 3 => KeysPly3
    case 4 => KeysPly4
    case 5 => KeysPly5
    case 6 => KeysPly6
    case 7 => KeysPly7
    case 8 => KeysPly8
    case _ => KeysPly9
  }

  lemma KeysChunkFacts(p: nat)
    requires p < 10
    ensures |PlyKeys(p)| == |PlyEntries(p)|
    ensures forall v | 0 <= v < |PlyKeys(p)| :: PlyKeys(p)[v] == PlyEntries(p)[v].0
  {
    match p
    case 0 => KeysChunkFacts0();
    case 1 => KeysChunkFacts1();
    case 2 => KeysChunkFacts2();
    case 3 => KeysChunkFacts3();
    case 4 => KeysChunkFacts4();
    case 5 => KeysChunkFacts5();
    case 6 => KeysChunkFacts6();
    case 7 => KeysChunkFacts7();
    case 8 => KeysChunkFacts8();
    case _ => KeysChunkFacts9();
  }

  lemma KeysChunkFacts0()
    ensures |KeysPly0| == |EntriesPly0|
    ensures forall v | 0 <= v < |KeysPly0| :: KeysPly0[v] == EntriesPly0[v].0
  {
  }

  lemma KeysChunkFacts1()
    ensures |KeysPly1| == |EntriesPly1|
    ensures forall v | 0 <= v < |KeysPly1| :: KeysPly1[v] == EntriesPly1[v].0
  {
  }

  lemma KeysChunkFacts2()
    ensures |KeysPly2| == |EntriesPly2|
    ensures forall v | 0 <= v < |KeysPly2| :: KeysPly2[v] == EntriesPly2[v].0
  {
  }

  lemma KeysChunkFacts3()
    ensures |KeysPly3| == |EntriesPly3|
    ensures forall v | 0 <= v < |KeysPly3| :: KeysPly3[v] == EntriesPly3[v].0
  {
  }

  lemma KeysChunkFacts4()
    ensures |KeysPly4| == |EntriesPly4|
    ensures forall v | 0 <= v < |KeysPly4| :: KeysPly4[v] == EntriesPly4[v].0
  {
  }

  lemma KeysChunkFacts5()
    ensures |KeysPly5| == |EntriesPly5|
    ensures forall v | 0 <= v < |KeysPly5| :: KeysPly5[v] == EntriesPly5[v].0
  {
  }

  lemma KeysChunkFacts6()
    ensures |KeysPly6| == |EntriesPly6|
    ensures forall v | 0 <= v < |KeysPly6| :: KeysPly6[v] == EntriesPly6[v].0
  {
  }

  lemma KeysChunkFacts7()
    ensures |KeysPly7| == |EntriesPly7|
    ensures forall v | 0 <= v < |KeysPly7| :: KeysPly7[v] == EntriesPly7[v].0
  {
  }

  lemma KeysChunkFacts8()
    ensures |KeysPly8| == |EntriesPly8|
    ensures forall v | 0 <= v < |KeysPly8| :: KeysPly8[v] == EntriesPly8[v].0
  {
  }

  lemma KeysChunkFacts9()
    ensures |KeysPly9| == |EntriesPly9|
    ensures forall v | 0 <= v < |KeysPly9| :: KeysPly9[v] == EntriesPly9[v].0
  {
  }

  lemma KeysChunkInKeys(p: nat, v: nat)
    requires p < 10 && v < |PlyKeys(p)|
    ensures Offset(p) + v < |Keys| && Keys[Offset(p) + v] == PlyKeys(p)[v]
  {
  }

  /** The graph's key list names the table's labels, in the same order. */
  lemma KeysAreEntryLabels()
    ensures Keys == KeysOf(Entries)
  {
    KeysPointwise();
    assert |Keys| == |KeysOf(Entries)|;
  }

  lemma KeysPointwise()
    ensures |Keys| == |Entries|
    ensures forall i | 0 <= i < |Keys| :: Keys[i] == Entries[i].0
  {
    forall i | 0 <= i < |Keys| ensures Keys[i] == Entries[i].0 {
      var p := PlyAt(i);
      KeysChunkFacts(p);
      KeysChunkInKeys(p, i - Offset(p));
      ChunkInEntries(p, i - Offset(p));
    }
  }

  /** Labels are pairwise distinct, in the table and in the key list. */
  lemma KeysDistinct()
    ensures Distinct(KeysOf(Entries)) && Distinct(Keys)
  {
    EntriesIndexed();
    KeysAreEntryLabels();
  }

  /** The catalogue holds the table's labels, each with its listed sequence. */
  lemma CatalogueEntries()
    ensures Catalogue().Keys == set i | 0 <= i < |Entries| :: Entries[i].0
    ensures forall i | 0 <= i < |Entries| :: Catalogue()[Entries[i].0] == Entries[i].1
  {
    KeysDistinct();
    InsertAllDistinct(map[], Entries);
  }

  /** The sequence stored at a declared label's position. */
  function PositionalSteps(l: Label): seq<Tile>
    requires Declared(l)
  {
    PlyEntries(Ply(l))[Variant(l)].1
  }

  /** A label is in the catalogue exactly when it is declared, and then maps
      to the sequence at its position. */
  lemma {:induction false} CatalogueLookup(l: Label)
    ensures l in Catalogue() <==> Declared(l)
    ensures l in Catalogue() ==> Catalogue()[l] == PositionalSteps(l)
  {
    CatalogueEntries();
    EntriesIndexed();
    if Declared(l) {
      var p, v := Ply(l), Variant(l);
      ChunkInEntries(p, v);
      ChunkFacts(p);
      LabelOfParts(l);
      assert Entries[Offset(p) + v].0 == l;
    }
    if l in Catalogue() {
      var i :| 0 <= i < |Entries| && Entries[i].0 == l;
    }
  }

  /** The catalogue's labels are exactly the graph's node keys; there are 50. */
  lemma CatalogueIsKeyList()
    ensures Catalogue().Keys == set l | l in Keys
    ensures |Catalogue()| == |Keys| == 50
  {
    CatalogueEntries();
    KeysDistinct();
    KeysAreEntryLabels();
    EntriesIndexed();
    SetOfSeqSize(Keys);
    assert Catalogue().Keys == set l | l in Keys by {
      forall l | l in Keys ensures l in Catalogue() {
        var i :| 0 <= i < |Keys| && Keys[i] == l;
        assert Entries[i].0 == l;
      }
    }
  }

  /** `b` is `a` with exactly one more move at the end. */
  predicate ExtendsByOne(a: seq<Tile>, b: seq<Tile>) {
    |b| == |a| + 1 && forall j | 0 <= j < |a| :: b[j] == a[j]
  }

  /** The listed edges whose target is not its source plus one move. */
  predicate OffScript(e: (Label, Label)) {
    e == ("0_0", "1_0") || e == ("0_0", "1_1") || e == ("3_2", "4_4") || e == ("7_4", "8_2")
  }

  /** What is true of one listed edge. */
  predicate EdgeFacts(e: (Label, Label)) {
    && Declared(e.0) && Declared(e.1)
    && Ply(e.1) == Ply(e.0) + 1
    && Ply(e.0) != 5 && Ply(e.1) != 6 && e.0 != "2_2"
    && (ExtendsByOne(PositionalSteps(e.0), PositionalSteps(e.1)) <==> !OffScript(e))
  }

  lemma EdgeChunkFacts0()
    ensures forall k | 0 <= k < |EdgesFromPly0| :: EdgeFacts(EdgesFromPly0[k])
  {
  }

  lemma EdgeChunkFacts1()
    ensures forall k | 0 <= k < |EdgesFromPly1| :: EdgeFacts(EdgesFromPly1[k])
  {
  }

  lemma EdgeChunkFacts2()
    ensures forall k | 0 <= k < |EdgesFromPly2| :: EdgeFacts(EdgesFromPly2[k])
  {
  }

  lemma EdgeChunkFacts3()
    ensures forall k | 0 <= k < |EdgesFromPly3| :: EdgeFacts(EdgesFromPly3[k])
  {
    assert PositionalSteps("4_4")[0] != PositionalSteps("3_2")[0];
  }

  lemma EdgeChunkFacts4()
    ensures forall k | 0 <= k < |EdgesFromPly4| :: EdgeFacts(EdgesFromPly4[k])
  {
  }

  lemma EdgeChunkFacts6()
    ensures forall k | 0 <= k < |EdgesFromPly6| :: EdgeFacts(EdgesFromPly6[k])
  {
  }

  lemma EdgeChunkFacts7()
    ensures forall k | 0 <= k < |EdgesFromPly7| :: EdgeFacts(EdgesFromPly7[k])
  {
    assert PositionalSteps("8_2")[5] != PositionalSteps("7_4")[5];
  }

  lemma EdgeChunkFacts8()
    ensures forall k | 0 <= k < |EdgesFromPly8| :: EdgeFacts(EdgesFromPly8[k])
  {
  }

  lemma AllEdgeFacts()
    ensures |Edges| == 42
    ensures forall k | 0 <= k < |Edges| :: EdgeFacts(Edges[k])
  {
    EdgeChunkFacts0(); EdgeChunkFacts1(); EdgeChunkFacts2(); EdgeChunkFacts3(); EdgeChunkFacts4(); EdgeChunkFacts6(); EdgeChunkFacts7(); EdgeChunkFacts8();
  }

  /** Every edge endpoint is one of the graph's keys, so the lookup that
      `build_graph` guards with `expect("Missing node")` always succeeds;
      every endpoint is also a catalogue label. */
  lemma EdgeEndpointsDeclared()
    ensures forall k | 0 <= k < |Edges| :: Edges[k].0 in Keys && Edges[k].1 in Keys
    ensures forall k | 0 <= k < |Edges| :: Edges[k].0 in Catalogue() && Edges[k].1 in Catalogue()
  {
    AllEdgeFacts();
    CatalogueIsKeyList();
    forall k | 0 <= k < |Edges|
      ensures Edges[k].0 in Catalogue() && Edges[k].1 in Catalogue()
    {
      CatalogueLookup(Edges[k].0);
      CatalogueLookup(Edges[k].1);
    }
  }

  /** Every edge goes from a ply-n label to a ply-(n+1) label; no edge leaves
      ply 5, none enters ply 6 and none leaves "2_2". */
  lemma EdgesAdvanceOnePly()
    ensures forall k | 0 <= k < |Edges| ::
      && WellFormedLabel(Edges[k].0) && WellFormedLabel(Edges[k].1)
      && Ply(Edges[k].1) == Ply(Edges[k].0) + 1
    ensures forall k | 0 <= k < |Edges| ::
      WellFormedLabel(Edges[k].0) && Ply(Edges[k].0) != 5 && Edges[k].0 != "2_2"
    ensures forall k | 0 <= k < |Edges| :: WellFormedLabel(Edges[k].1) && Ply(Edges[k].1) != 6
  {
    AllEdgeFacts();
  }

  /** An edge's target sequence is its source sequence with one move
      appended, for every edge except the four off-script ones. */
  lemma EdgesExtendByOneMove()
    ensures forall k | 0 <= k < |Edges| ::
      && Edges[k].0 in Catalogue() && Edges[k].1 in Catalogue()
      && (ExtendsByOne(Catalogue()[Edges[k].0], Catalogue()[Edges[k].1]) <==> !OffScript(Edges[k]))
  {
    AllEdgeFacts();
    forall k | 0 <= k < |Edges|
      ensures && Edges[k].0 in Catalogue() && Edges[k].1 in Catalogue()
              && (ExtendsByOne(Catalogue()[Edges[k].0], Catalogue()[Edges[k].1]) <==> !OffScript(Edges[k]))
    {
      CatalogueLookup(Edges[k].0);
      CatalogueLookup(Edges[k].1);
    }
  }

  /** What every catalogue sequence looks like: the root holds the single
      placeholder move; a ply-n sequence holds n moves in cells 0..8, the
      Machine first and the players alternating; and apart from "7_3" and
      "7_6" no cell is played twice. */
  lemma CatalogueShape(l: Label)
    requires l in Catalogue()
    ensures WellFormedLabel(l)
    ensures Ply(l) == 0 ==> Catalogue()[l] == [InitTile]
    ensures Ply(l) > 0 ==> |Catalogue()[l]| == Ply(l) && Alternates(Catalogue()[l])
    ensures l != "7_3" && l != "7_6" ==> CellsDistinct(Catalogue()[l])
  {
    CatalogueLookup(l);
    ChunkFacts(Ply(l));
    assert EntryFacts(Ply(l), Variant(l), PlyEntries(Ply(l))[Variant(l)]);
  }

  /** The root entry "0_0" holds only the placeholder move. */
  lemma RootEntry()
    ensures "0_0" in Catalogue() && Catalogue()["0_0"] == [InitTile]
  {
    CatalogueLookup("0_0");
  }

  /** The data defects of the catalogue: "7_3" plays cell 4 twice, "7_6"
      plays cell 5 twice, and "4_2" and "4_4" are the same sequence. */
  lemma KnownDefects()
    ensures "7_3" in Catalogue() && |Catalogue()["7_3"]| == 7
    ensures Catalogue()["7_3"][0].fieldId == Catalogue()["7_3"][6].fieldId == 4
    ensures "7_6" in Catalogue() && |Catalogue()["7_6"]| == 7
    ensures Catalogue()["7_6"][4].fieldId == Catalogue()["7_6"][6].fieldId == 5
    ensures "4_2" in Catalogue() && "4_4" in Catalogue()
    ensures Catalogue()["4_2"] == Catalogue()["4_4"]
  {
    CatalogueLookup("7_3");
    CatalogueLookup("7_6");
    CatalogueLookup("4_2");
    CatalogueLookup("4_4");
  }

  /** "2_2" is a node with no outgoing edge. */
  lemma DeadEnd()
    ensures "2_2" in Keys && Successors(Edges, "2_2") == []
  {
    AllEdgeFacts();
    SuccessorsNonEmpty(Edges, "2_2");
    CatalogueIsKeyList();
    CatalogueLookup("2_2");
  }

  /** Every successor of every label is a catalogue label. */
  lemma SuccessorsCatalogued()
    ensures forall l, x | x in Successors(Edges, l) :: x in Catalogue()
  {
    EdgeEndpointsDeclared();
    forall l, x | x in Successors(Edges, l) ensures x in Catalogue() {
      SuccessorsSpec(Edges, l, x);
      var k :| 0 <= k < |Edges| && Edges[k] == (l, x);
    }
  }
}
