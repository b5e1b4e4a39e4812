/**
 Pure board rules of the 4x4 game (src/games/logic/game_logic.py): win-shape
 detection in a fixed scan order, the winner derived from it, the full-board
 test and the enumeration of empty cells.
 */
module BoardLogic {
  import opened Common

  /** An ordered list of board coordinates; a win-shape has four of them. */
  type Pattern = seq<Coord>

  function Row(i: int): Pattern {
    [(i, 0), (i, 1), (i, 2), (i, 3)]
  }

  function Col(i: int): Pattern {
    [(0, i), (1, i), (2, i), (3, i)]
  }

  function MainDiagonal(): Pattern {
    [(0, 0), (1, 1), (2, 2), (3, 3)]
  }

  function AntiDiagonal(): Pattern {
    [(0, 3), (1, 2), (2, 1), (3, 0)]
  }

  /** The 2x2 square with top-left corner (i, j), listed as the offsets
      (0,0), (0,1), (1,0), (1,1). */
  function Square(i: int, j: int): Pattern {
    [(i, j), (i, j + 1), (i + 1, j), (i + 1, j + 1)]
  }

  /** `all(board[r][c] == p for (r, c) in pat)`. */
  predicate Uniform(b: Board, pat: Pattern, p: Player) {
    forall k | 0 <= k < |pat| :: InBounds(pat[k]) && At(b, pat[k]) == p
  }

  /** The shape is filled by one symbol, X or O. */
  predicate Won(b: Board, pat: Pattern) {
    Uniform(b, pat, X) || Uniform(b, pat, O)
  }

  /** Four distinct in-bounds coordinates. */
  predicate WellFormed(pat: Pattern) {
    && |pat| == 4
    && (forall k | 0 <= k < 4 :: InBounds(pat[k]))
    && (forall k, l | 0 <= k < l < 4 :: pat[k] != pat[l])
  }

  predicate NoLineWon(b: Board) {
    forall i | 0 <= i < 4 :: !Won(b, Row(i)) && !Won(b, Col(i))
  }

  /** No row, column, diagonal or 2x2 square is filled by one symbol. */
  predicate NoShapeWon(b: Board) {
    && NoLineWon(b)
    && !Won(b, MainDiagonal())
    && !Won(b, AntiDiagonal())
    && forall i, j | 0 <= i < 3 && 0 <= j < 3 :: !Won(b, Square(i, j))
  }

  // ---------------------------------------------------------------------------
  // find_winning_pattern, step by step as the original scans
  // ---------------------------------------------------------------------------

  /** For i = start..3: row i (X, then O), then column i (X, then O). */
  function ScanLines(b: Board, i: nat): Option<Pattern>
    requires i <= 4
    decreases 4 - i
  {
    if i == 4 then None
    else if Uniform(b, Row(i), X) then Some(Row(i))
    else if Uniform(b, Row(i), O) then Some(Row(i))
    else if Uniform(b, Col(i), X) then Some(Col(i))
    else if Uniform(b, Col(i), O) then Some(Col(i))
    else ScanLines(b, i + 1)
  }

  /** Main diagonal (X, then O), then anti-diagonal (X, then O). */
  function ScanDiagonals(b: Board): Option<Pattern> {
    if Uniform(b, MainDiagonal(), X) then Some(MainDiagonal())
    else if Uniform(b, MainDiagonal(), O) then Some(MainDiagonal())
    else if Uniform(b, AntiDiagonal(), X) then Some(AntiDiagonal())
    else if Uniform(b, AntiDiagonal(), O) then Some(AntiDiagonal())
    else None
  }

  /** Squares by top-left corner k = 3*i + j in row-major order, X before O. */
  function ScanSquares(b: Board, k: nat): Option<Pattern>
    requires k <= 9
    decreases 9 - k
  {
    if k == 9 then None
    else if Uniform(b, Square(k / 3, k % 3), X) then Some(Square(k / 3, k % 3))
    else if Uniform(b, Square(k / 3, k % 3), O) then Some(Square(k / 3, k % 3))
    else ScanSquares(b, k + 1)
  }

  /** `find_winning_pattern`: the first win-shape found, or None. */
  function FindWinningPattern(b: Board): Option<Pattern> {
    match ScanLines(b, 0)
    case Some(pat) => Some(pat)
    case None =>
      match ScanDiagonals(b)
      case Some(pat) => Some(pat)
      case None => ScanSquares(b, 0)
  }

  /** `check_winner`: the symbol held by the first cell of the winning pattern. */
  function CheckWinner(b: Board): (w: Option<Player>)
    ensures w.None? <==> NoShapeWon(b)
    ensures w.Some? ==> FindWinningPattern(b).Some? && Uniform(b, FindWinningPattern(b).value, w.value)
  {
    WinningPatternNoneIff(b);
    match FindWinningPattern(b)
    case None => None
    case Some(pat) =>
      WinningPatternSound(b);
      var w := At(b, pat[0]);
      assert w == X || w == O;
      Some(w)
  }

  // ---------------------------------------------------------------------------
  // The documented scan order, as data, and the first won shape in a list
  // ---------------------------------------------------------------------------

  /** The nineteen win-shapes by name. */
  datatype Shape = RowShape(i: int) | ColShape(i: int) | MainShape | AntiShape | SquareShape(i: int, j: int)

  function Cells(s: Shape): Pattern {
    match s
    case RowShape(i) => Row(i)
    case ColShape(i) => Col(i)
    case MainShape => MainDiagonal()
    case AntiShape => AntiDiagonal()
    case SquareShape(i, j) => Square(i, j)
  }

  predicate ShapeWon(b: Board, s: Shape) {
    Won(b, Cells(s))
  }

  /** The shapes of the original loops: row and column indices 0..3, square corners 0..2. */
  predicate ValidShape(s: Shape) {
    match s
    case RowShape(i) => 0 <= i < 4
    case ColShape(i) => 0 <= i < 4
    case MainShape => true
    case AntiShape => true
    case SquareShape(i, j) => 0 <= i < 3 && 0 <= j < 3
  }

  lemma ValidShapeWellFormed(s: Shape)
    requires ValidShape(s)
    ensures WellFormed(Cells(s))
  {
  }

  /** Every win-shape once, in the order the original inspects them. */
  function ScanOrder(): seq<Shape> {
    [RowShape(0), ColShape(0), RowShape(1), ColShape(1),
     RowShape(2), ColShape(2), RowShape(3), ColShape(3),
     MainShape, AntiShape,
     SquareShape(0, 0), SquareShape(0, 1), SquareShape(0, 2),
     SquareShape(1, 0), SquareShape(1, 1), SquareShape(1, 2),
     SquareShape(2, 0), SquareShape(2, 1), SquareShape(2, 2)]
  }

  /** The line shapes from index i on, as the first loop of the original visits them. */
  function Lines(i: nat): seq<Shape>
    requires i <= 4
    decreases 4 - i
  {
    if i == 4 then [] else [RowShape(i), ColShape(i)] + Lines(i + 1)
  }

  /** The squares from corner k = 3*i + j on, as the nested square loops visit them. */
  function Squares(k: nat): seq<Shape>
    requires k <= 9
    decreases 9 - k
  {
    if k == 9 then [] else [SquareShape(k / 3, k % 3)] + Squares(k + 1)
  }

  lemma LinesListing()
    ensures Lines(0) == ScanOrder()[..8]
  {
    assert Lines(4) == [];
    assert Lines(3) == [RowShape(3), ColShape(3)];
    assert Lines(2) == [RowShape(2), ColShape(2)] + Lines(3);
    assert Lines(1) == [RowShape(1), ColShape(1)] + Lines(2);
  }

  lemma SquaresLastRow()
    ensures Squares(6) == [SquareShape(2, 0), SquareShape(2, 1), SquareShape(2, 2)]
  {
    assert Squares(9) == [];
    assert Squares(8) == [SquareShape(2, 2)];
    assert Squares(7) == [SquareShape(2, 1)] + Squares(8);
  }

  lemma SquaresMiddleRow()
    ensures Squares(3) == [SquareShape(1, 0), SquareShape(1, 1), SquareShape(1, 2)] + Squares(6)
  {
    assert Squares(5) == [SquareShape(1, 2)] + Squares(6);
    assert Squares(4) == [SquareShape(1, 1)] + Squares(5);
  }

  lemma SquaresFirstRow()
    ensures Squares(0) == [SquareShape(0, 0), SquareShape(0, 1), SquareShape(0, 2)] + Squares(3)
  {
    assert Squares(2) == [SquareShape(0, 2)] + Squares(3);
    assert Squares(1) == [SquareShape(0, 1)] + Squares(2);
  }

  lemma SquaresListing()
    ensures Squares(0) == ScanOrder()[10..]
  {
    SquaresLastRow();
    SquaresMiddleRow();
    SquaresFirstRow();
  }

  lemma ScanOrderBuilt()
    ensures ScanOrder() == Lines(0) + [MainShape, AntiShape] + Squares(0)
  {
    LinesListing();
    SquaresListing();
    var order := ScanOrder();
    assert order == order[..8] + order[8..10] + order[10..];
  }

  /** Position of the first won shape of `shapes`, or |shapes| when none is won. */
  function FirstWonIndex(b: Board, shapes: seq<Shape>): (k: nat)
    ensures k <= |shapes|
    ensures k < |shapes| ==> ShapeWon(b, shapes[k])
    ensures forall l | 0 <= l < k :: !ShapeWon(b, shapes[l])
    decreases |shapes|
  {
    if |shapes| == 0 then 0
    else if ShapeWon(b, shapes[0]) then 0
    else
      var rest := shapes[1..];
      var k := FirstWonIndex(b, rest);
      assert forall l | 0 < l <= k :: shapes[l] == rest[l - 1];
      1 + k
  }

  /** The cells of the first won shape of `shapes`. */
  function FirstWon(b: Board, shapes: seq<Shape>): Option<Pattern> {
    var k := FirstWonIndex(b, shapes);
    if k < |shapes| then Some(Cells(shapes[k])) else None
  }

  lemma FirstWonCons(b: Board, s: Shape, rest: seq<Shape>)
    ensures FirstWon(b, [s] + rest) == if ShapeWon(b, s) then Some(Cells(s)) else FirstWon(b, rest)
  {
    assert ([s] + rest)[1..] == rest;
  }

  lemma {:induction false} FirstWonAppend(b: Board, s1: seq<Shape>, s2: seq<Shape>)
    ensures FirstWon(b, s1 + s2) == if FirstWon(b, s1).Some? then FirstWon(b, s1) else FirstWon(b, s2)
    decreases |s1|
  {
    if |s1| == 0 {
      assert s1 + s2 == s2;
    } else {
      assert s1 + s2 == [s1[0]] + (s1[1..] + s2);
      assert s1 == [s1[0]] + s1[1..];
      FirstWonCons(b, s1[0], s1[1..] + s2);
      FirstWonCons(b, s1[0], s1[1..]);
      FirstWonAppend(b, s1[1..], s2);
    }
  }

  /** One round of the line loop: row i, then column i, then the rest. */
  lemma ScanLinesStep(b: Board, i: nat)
    requires i < 4
    ensures ScanLines(b, i) == if Won(b, Row(i)) then Some(Row(i))
                               else if Won(b, Col(i)) then Some(Col(i))
                               else ScanLines(b, i + 1)
  {
  }

  lemma LinesStep(b: Board, i: nat)
    requires i < 4
    ensures FirstWon(b, Lines(i)) == if Won(b, Row(i)) then Some(Row(i))
                                     else if Won(b, Col(i)) then Some(Col(i))
                                     else FirstWon(b, Lines(i + 1))
  {
    assert Lines(i) == [RowShape(i)] + ([ColShape(i)] + Lines(i + 1));
    FirstWonCons(b, RowShape(i), [ColShape(i)] + Lines(i + 1));
    FirstWonCons(b, ColShape(i), Lines(i + 1));
  }

  lemma {:induction false} ScanLinesInOrder(b: Board, i: nat)
    requires i <= 4
    ensures ScanLines(b, i) == FirstWon(b, Lines(i))
    decreases 4 - i
  {
    if i < 4 {
      ScanLinesInOrder(b, i + 1);
      ScanLinesStep(b, i);
      LinesStep(b, i);
    }
  }

  /** One round of the square loops: the square at corner k, then the rest. */
  lemma ScanSquaresStep(b: Board, k: nat)
    requires k < 9
    ensures ScanSquares(b, k) == if Won(b, Square(k / 3, k % 3)) then Some(Square(k / 3, k % 3))
                                 else ScanSquares(b, k + 1)
  {
  }

  lemma SquaresStep(b: Board, k: nat)
    requires k < 9
    ensures FirstWon(b, Squares(k)) == if Won(b, Square(k / 3, k % 3)) then Some(Square(k / 3, k % 3))
                                       else FirstWon(b, Squares(k + 1))
  {
    var s := SquareShape(k / 3, k % 3);
    assert Squares(k) == [s] + Squares(k + 1);
    assert ShapeWon(b, s) == Won(b, Square(k / 3, k % 3));
    FirstWonCons(b, s, Squares(k + 1));
  }

  lemma {:induction false} ScanSquaresInOrder(b: Board, k: nat)
    requires k <= 9
    ensures ScanSquares(b, k) == FirstWon(b, Squares(k))
    decreases 9 - k
  {
    if k < 9 {
      ScanSquaresInOrder(b, k + 1);
      ScanSquaresStep(b, k);
      SquaresStep(b, k);
    }
  }

  /** The diagonals, main before anti, as the scan visits them. */
  lemma DiagonalsInOrder(b: Board)
    ensures ScanDiagonals(b) == FirstWon(b, [MainShape, AntiShape])
  {
    FirstWonCons(b, MainShape, [AntiShape]);
    FirstWonCons(b, AntiShape, []);
  }

  // ---------------------------------------------------------------------------
  // Properties of find_winning_pattern and check_winner
  // ---------------------------------------------------------------------------

  /** The scan returns the first won shape of the documented order; whichever
      symbol fills it, the shape is reported once. */
  lemma WinningPatternInScanOrder(b: Board)
    ensures FindWinningPattern(b) == FirstWon(b, ScanOrder())
  {
    ScanOrderBuilt();
    ScanLinesInOrder(b, 0);
    ScanSquaresInOrder(b, 0);
    DiagonalsInOrder(b);
    FirstWonAppend(b, Lines(0), [MainShape, AntiShape]);
    FirstWonAppend(b, Lines(0) + [MainShape, AntiShape], Squares(0));
  }

  lemma ScanOrderValid()
    ensures forall s | s in ScanOrder() :: ValidShape(s)
  {
  }

  lemma {:induction false} ScanLinesNone(b: Board, i: nat)
    requires i <= 4
    ensures ScanLines(b, i).None? <==> forall l | i <= l < 4 :: !Won(b, Row(l)) && !Won(b, Col(l))
    decreases 4 - i
  {
    if i < 4 {
      ScanLinesNone(b, i + 1);
      ScanLinesStep(b, i);
      assert (forall l | i <= l < 4 :: !Won(b, Row(l)) && !Won(b, Col(l))) <==>
             !Won(b, Row(i)) && !Won(b, Col(i)) && (forall l | i + 1 <= l < 4 :: !Won(b, Row(l)) && !Won(b, Col(l)));
    }
  }

  lemma {:induction false} ScanSquaresNone(b: Board, k: nat)
    requires k <= 9
    ensures ScanSquares(b, k).None? <==> forall l | k <= l < 9 :: !Won(b, Square(l / 3, l % 3))
    decreases 9 - k
  {
    if k < 9 {
      ScanSquaresNone(b, k + 1);
      ScanSquaresStep(b, k);
    }
  }

  lemma SquaresNone(b: Board)
    ensures ScanSquares(b, 0).None? <==> forall i, j | 0 <= i < 3 && 0 <= j < 3 :: !Won(b, Square(i, j))
  {
    ScanSquaresNone(b, 0);
    if forall l | 0 <= l < 9 :: !Won(b, Square(l / 3, l % 3)) {
      forall i, j | 0 <= i < 3 && 0 <= j < 3 ensures !Won(b, Square(i, j)) {
        var l := 3 * i + j;
        assert l / 3 == i && l % 3 == j;
      }
    }
  }

  /** A returned pattern is four distinct in-bounds cells filled by one symbol. */
  lemma WinningPatternSound(b: Board)
    ensures FindWinningPattern(b).Some? ==>
              WellFormed(FindWinningPattern(b).value) && Won(b, FindWinningPattern(b).value)
  {
    WinningPatternInScanOrder(b);
    var order := ScanOrder();
    var k := FirstWonIndex(b, order);
    if k < |order| {
      ScanOrderValid();
      assert order[k] in order;
      ValidShapeWellFormed(order[k]);
    }
  }

  /** None exactly when no row, column, diagonal or 2x2 square is uniform. */
  lemma WinningPatternNoneIff(b: Board)
    ensures FindWinningPattern(b).None? <==> NoShapeWon(b)
  {
    ScanLinesNone(b, 0);
    SquaresNone(b);
  }

  /** `check_winner` names a symbol that fills some win-shape of the board. */
  lemma CheckWinnerWitness(b: Board)
    ensures CheckWinner(b).Some? ==>
              exists s | s in ScanOrder() :: Uniform(b, Cells(s), CheckWinner(b).value)
  {
    WinningPatternInScanOrder(b);
    if CheckWinner(b).Some? {
      var order := ScanOrder();
      var k := FirstWonIndex(b, order);
      assert order[k] in order;
      assert Uniform(b, Cells(order[k]), CheckWinner(b).value);
    }
  }

  // ---------------------------------------------------------------------------
  // is_board_full and get_valid_moves, over the row-major flattened index
  // ---------------------------------------------------------------------------

  lemma CellOfIndex(c: Coord)
    requires InBounds(c)
    ensures CellOf(Index(c)) == c
  {
  }

  function FullFrom(b: Board, k: nat): (r: bool)
    requires k <= 16
    ensures r <==> forall q | k <= q < 16 :: At(b, CellOf(q)) != Empty
    decreases 16 - k
  {
    k == 16 || (At(b, CellOf(k)) != Empty && FullFrom(b, k + 1))
  }

  /** `is_board_full`: true exactly when no cell is empty. */
  function IsBoardFull(b: Board): (r: bool)
    ensures r <==> forall c | InBounds(c) :: At(b, c) != Empty
  {
    var r := FullFrom(b, 0);
    assert r ==> forall c | InBounds(c) :: At(b, c) != Empty by {
      forall c | InBounds(c) ensures r ==> At(b, c) != Empty {
        CellOfIndex(c);
      }
    }
    r
  }

  function EmptiesFrom(b: Board, k: nat): (ms: seq<Coord>)
    requires k <= 16
    ensures forall t | 0 <= t < |ms| :: InBounds(ms[t]) && k <= Index(ms[t]) && At(b, ms[t]) == Empty
    ensures forall t, u | 0 <= t < u < |ms| :: Index(ms[t]) < Index(ms[u])
    ensures forall q | k <= q < 16 && At(b, CellOf(q)) == Empty :: CellOf(q) in ms
    decreases 16 - k
  {
    if k == 16 then []
    else if At(b, CellOf(k)) == Empty then [CellOf(k)] + EmptiesFrom(b, k + 1)
    else EmptiesFrom(b, k + 1)
  }

  /** `get_valid_moves`: exactly the empty cells, each once, in row-major order. */
  function ValidMoves(b: Board): (ms: seq<Coord>)
    ensures forall c :: c in ms <==> InBounds(c) && At(b, c) == Empty
    ensures forall t, u | 0 <= t < u < |ms| :: Index(ms[t]) < Index(ms[u])
  {
    var ms := EmptiesFrom(b, 0);
    assert forall c | InBounds(c) && At(b, c) == Empty :: c in ms by {
      forall c | InBounds(c) && At(b, c) == Empty ensures c in ms {
        CellOfIndex(c);
      }
    }
    ms
  }

  lemma ValidMovesEmptyIffFull(b: Board)
    ensures ValidMoves(b) == [] <==> IsBoardFull(b)
  {
    var ms := ValidMoves(b);
    if ms != [] {
      assert ms[0] in ms;
    }
  }
}
