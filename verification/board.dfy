/** The primitive entities of the game: players, moves ("tiles"), the
    records the user interface hands to the engine, catalogue labels, and the
    row model through which the engine reads and updates the interface. */
module Board {

  datatype Option<T> = None | Some(value: T)

  /** Who made a move; `Nobody` only marks the catalogue's root entry. */
  datatype Player = Machine | Human | Nobody

  /** One move: a cell id (0..8, row-major) and the player who took it. */
  datatype Tile = Tile(fieldId: int, player: Player)

  /** The placeholder move `Tile::init()`: cell -1, played by nobody. */
  const InitTile: Tile := Tile(-1, Nobody)

  /** The highlight colour of a cell; the concrete brushes are abstracted. */
  datatype WinColor = DefaultColor | MachineWinColor | HumanWinColor

  /** One cell of the board as the interface shows it. */
  datatype TileData = TileData(
    id: int,
    empty: bool,
    machineClicked: bool,
    humanClicked: bool,
    winColor: WinColor)

  /** One entry of the move history: a cell id and a player tag ("H" or "M"). */
  datatype Sequence = Sequence(id: int, player: string)

  /** A catalogue label, written "<ply>_<variant>". */
  type Label = string

  function Digit(d: nat): char
    requires d < 10
  {
    ('0' as int + d) as char
  }

  /** The label "<p>_<v>" for single-digit p and v. */
  function MakeLabel(p: nat, v: nat): (l: Label)
    requires p < 10 && v < 10
    ensures WellFormedLabel(l) && Ply(l) == p && Variant(l) == v
  {
    [Digit(p), '_', Digit(v)]
  }

  predicate WellFormedLabel(l: Label) {
    |l| == 3 && '0' <= l[0] <= '9' && l[1] == '_' && '0' <= l[2] <= '9'
  }

  /** The number of moves a label's sequence is meant to hold. */
  function Ply(l: Label): nat
    requires WellFormedLabel(l)
  {
    (l[0] as int) - ('0' as int)
  }

  function Variant(l: Label): nat
    requires WellFormedLabel(l)
  {
    (l[2] as int) - ('0' as int)
  }

  /** A label is determined by its ply and its variant. */
  lemma LabelOfParts(l: Label)
    requires WellFormedLabel(l)
    ensures Ply(l) < 10 && Variant(l) < 10
    ensures l == MakeLabel(Ply(l), Variant(l))
  {
  }

  /** A list model of the user interface (a `VecModel`): its rows are read
      in order and replaced, removed or inserted one at a time. */
  class VecModel<T> {
    var rows: seq<T>

    constructor (init: seq<T>)
      ensures rows == init
    {
      rows := init;
    }

    method SetRowData(i: nat, v: T)
      requires i < |rows|
      modifies this
      ensures rows == old(rows)[i := v]
    {
      rows := rows[i := v];
    }

    method Remove(i: nat)
      requires i < |rows|
      modifies this
      ensures rows == old(rows)[..i] + old(rows)[i + 1..]
    {
      rows := rows[..i] + rows[i + 1..];
    }

    method Insert(i: nat, v: T)
      requires i <= |rows|
      modifies this
      ensures rows == old(rows)[..i] + [v] + old(rows)[i..]
    {
      rows := rows[..i] + [v] + rows[i..];
    }
  }
}
