/**
 The vocabulary shared by every layer of the 4x4 tic-tac-toe engine: cells,
 players, the fixed 4x4 board, coordinates, phases and piece counters.
 */
module Common {

  /** The conventional Some/None datatype. */
  datatype Option<+T> = None | Some(value: T)

  /** The value of a Python expression that may raise (a missing dictionary key,
      a missing attribute). Every handler of the bot swallows such exceptions
      with a broad `except`, so `Raised` carries no detail. */
  datatype Eval<+T> = Value(value: T) | Raised

  /** A board cell: `" "`, `"X"` or `"O"` in the original. */
  datatype Cell = Empty | X | O

  /** A player symbol is a non-empty cell, exactly as the original stores the
      current player as the same string it writes into cells. */
  type Player = c: Cell | c != Empty witness X

  /** The opponent: `"O" if p == "X" else "X"`. */
  function Other(p: Player): (q: Player)
    ensures q != p
  {
    if p == X then O else X
  }

  /** Side length of the board and number of pieces per player (settings). */
  const BoardSize := 4
  const MaxPieces := 4

  type Coord = (int, int)

  predicate InBounds(c: Coord) {
    0 <= c.0 < BoardSize && 0 <= c.1 < BoardSize
  }

  /** A coordinate on the board, as the keyboards' callback data always name one. */
  type Pos = c: Coord | InBounds(c) witness (0, 0)

  /** Row-major flattened index of a cell. */
  function Index(c: Coord): int {
    c.0 * BoardSize + c.1
  }

  /** The WebApp's position decoding `(p // 4, p % 4)`. */
  function CellOf(p: int): (c: Coord)
    requires 0 <= p < BoardSize * BoardSize
    ensures InBounds(c) && Index(c) == p
  {
    (p / BoardSize, p % BoardSize)
  }

  type Board = b: seq<seq<Cell>> | |b| == 4 && forall r | 0 <= r < 4 :: |b[r]| == 4
    witness [[Empty, Empty, Empty, Empty], [Empty, Empty, Empty, Empty],
             [Empty, Empty, Empty, Empty], [Empty, Empty, Empty, Empty]]

  const EmptyRow: seq<Cell> := [Empty, Empty, Empty, Empty]
  const EmptyBoard: Board := [EmptyRow, EmptyRow, EmptyRow, EmptyRow]

  function At(b: Board, c: Coord): Cell
    requires InBounds(c)
  {
    b[c.0][c.1]
  }

  /** `board[row][col] = v`: the target cell holds `v`, every other cell is unchanged. */
  function SetCell(b: Board, c: Coord, v: Cell): (b': Board)
    requires InBounds(c)
    ensures At(b', c) == v
    ensures forall d | InBounds(d) && d != c :: At(b', d) == At(b, d)
  {
    b[c.0 := b[c.0][c.1 := v]]
  }

  /** Number of cells of `b` holding `v`. */
  function MarkCount(b: Board, v: Cell): nat {
    multiset(b[0])[v] + multiset(b[1])[v] + multiset(b[2])[v] + multiset(b[3])[v]
  }

  /** Writing one entry of a row moves one unit of count from the old content to the new one. */
  lemma RowWriteCount(row: seq<Cell>, j: int, v: Cell, w: Cell)
    requires 0 <= j < |row|
    ensures multiset(row[j := v])[w] == multiset(row)[w] - (if row[j] == w then 1 else 0) + (if v == w then 1 else 0)
  {
    assert multiset(row[j := v]) == multiset(row) - multiset{row[j]} + multiset{v};
  }

  /** Writing one cell moves one unit of count from the old content to the new one. */
  lemma SetCellCount(b: Board, c: Coord, v: Cell, w: Cell)
    requires InBounds(c)
    ensures MarkCount(SetCell(b, c, v), w)
            == MarkCount(b, w) - (if At(b, c) == w then 1 else 0) + (if v == w then 1 else 0)
  {
    RowWriteCount(b[c.0], c.1, v, w);
    var b' := SetCell(b, c, v);
    assert b'[c.0] == b[c.0][c.1 := v];
    assert forall r | 0 <= r < 4 && r != c.0 :: b'[r] == b[r];
  }

  lemma EmptyBoardCounts()
    ensures MarkCount(EmptyBoard, X) == 0 && MarkCount(EmptyBoard, O) == 0
    ensures forall c | InBounds(c) :: At(EmptyBoard, c) == Empty
  {
    assert multiset(EmptyRow)[X] == 0;
    assert multiset(EmptyRow)[O] == 0;
  }

  /** Game phases, `"waiting" | "placement" | "movement" | "finished"`. */
  datatype Phase = Waiting | Placement | Movement | Finished

  /** The `pieces` dictionary `{"X": n, "O": m}`. */
  datatype Pieces = Pieces(x: int, o: int) {

    function Of(p: Player): int {
      if p == X then x else o
    }

    /** `pieces[p] += 1`: only `p`'s counter grows, by one. */
    function Inc(p: Player): (r: Pieces)
      ensures r.Of(p) == Of(p) + 1
      ensures r.Of(Other(p)) == Of(Other(p))
    {
      if p == X then Pieces(x + 1, o) else Pieces(x, o + 1)
    }

    /** `all(v == 4 for v in pieces.values())`, equally `pieces["X"] == 4 and pieces["O"] == 4`. */
    predicate BothFull() {
      x == MaxPieces && o == MaxPieces
    }
  }
}
