/**
 The inline-keyboard game `TicTacToe4x4` (src/games/tictactoe_4x4/game.py): its
 own winner check, the placement step and the select / deselect / commit
 protocol of the movement phase. Replies to the chat are left out; each click
 reports what happened as a `Click` value instead.
 */
module TicTacToe {
  import opened Common
  import opened BoardLogic
  import opened Sessions

  /** What a board click did. */
  datatype Click =
    | Placed
    | Occupied
    | Selected
    | NotOwnPiece
    | Deselected
    | Moved
    | Victory(winner: Player)
    | Ignored

  /** `TicTacToe4x4(chat_id)`: the `BaseGame` defaults (no message, no players,
      waiting, action time 0) with an empty board, no pieces, X to move. */
  function NewClassic(): (s: Session)
    ensures s.kind == Classic && s.messageId.None? && s.players == map[]
    ensures s.phase == Waiting && s.lastActionTime == 0
    ensures forall c | InBounds(c) :: At(s.board, c) == Empty
    ensures MarkCount(s.board, X) == 0 && MarkCount(s.board, O) == 0
    ensures s.pieces == Pieces(0, 0) && s.current == X
    ensures s.selected.None? && s.winner.None? && s.pattern.None?
  {
    EmptyBoardCounts();
    Session(Classic, EmptyBoard, Pieces(0, 0), X, map[], map[], Waiting, None, None, None, 0, None)
  }

  // ---------------------------------------------------------------------------
  // check_winner of the game class: X before O per row/column index, X on
  // either diagonal before O on either diagonal, then the squares.
  // ---------------------------------------------------------------------------

  function ClassicScanLines(b: Board, i: nat): Option<Player>
    requires i <= 4
    decreases 4 - i
  {
    if i == 4 then None
    else if Uniform(b, Row(i), X) || Uniform(b, Col(i), X) then Some(X)
    else if Uniform(b, Row(i), O) || Uniform(b, Col(i), O) then Some(O)
    else ClassicScanLines(b, i + 1)
  }

  function ClassicScanSquares(b: Board, k: nat): Option<Player>
    requires k <= 9
    decreases 9 - k
  {
    if k == 9 then None
    else if Uniform(b, Square(k / 3, k % 3), X) then Some(X)
    else if Uniform(b, Square(k / 3, k % 3), O) then Some(O)
    else ClassicScanSquares(b, k + 1)
  }

  function ClassicWinner(b: Board): Option<Player> {
    match ClassicScanLines(b, 0)
    case Some(p) => Some(p)
    case None =>
      if Uniform(b, MainDiagonal(), X) || Uniform(b, AntiDiagonal(), X) then Some(X)
      else if Uniform(b, MainDiagonal(), O) || Uniform(b, AntiDiagonal(), O) then Some(O)
      else ClassicScanSquares(b, 0)
  }

  /** `find_winning_pattern` of the game class has no body and returns None. */
  function ClassicWinningPattern(b: Board): Option<Pattern> {
    None
  }

  /** The symbol filling the first cell of a pattern, as the module-level
      `check_winner` reads it. */
  function SymbolOf(b: Board, pat: Option<Pattern>): Option<Cell>
    requires pat.Some? ==> |pat.value| > 0 && InBounds(pat.value[0])
  {
    match pat
    case None => None
    case Some(p) => Some(At(b, p[0]))
  }

  /** A row and the column of the same index share a cell. */
  lemma RowColumnMeet(b: Board, i: int, p: Player, q: Player)
    requires 0 <= i < 4 && Uniform(b, Row(i), p) && Uniform(b, Col(i), q)
    ensures p == q
  {
    assert Row(i)[i] == (i, i) == Col(i)[i];
  }

  /** A shape cannot be filled by both symbols. */
  lemma UniformExclusive(b: Board, pat: Pattern)
    requires |pat| > 0
    ensures !(Uniform(b, pat, X) && Uniform(b, pat, O))
  {
    if Uniform(b, pat, X) {
      assert At(b, pat[0]) == X;
    }
  }

  lemma {:induction false} ClassicLinesAgree(b: Board, i: nat)
    requires i <= 4
    ensures ScanLines(b, i).Some? ==> |ScanLines(b, i).value| == 4 && InBounds(ScanLines(b, i).value[0])
    ensures ClassicScanLines(b, i) == SymbolOf(b, ScanLines(b, i))
    decreases 4 - i
  {
    if i < 4 {
      ClassicLinesAgree(b, i + 1);
      UniformExclusive(b, Row(i));
      UniformExclusive(b, Col(i));
      if Uniform(b, Row(i), O) && Uniform(b, Col(i), X) {
        RowColumnMeet(b, i, O, X);
      }
      if Uniform(b, Row(i), X) {
        assert Row(i)[0] == (i, 0);
      } else if Uniform(b, Row(i), O) {
        assert Row(i)[0] == (i, 0);
      } else if Uniform(b, Col(i), X) || Uniform(b, Col(i), O) {
        assert Col(i)[0] == (0, i);
      }
    }
  }

  lemma {:induction false} ClassicSquaresAgree(b: Board, k: nat)
    requires k <= 9
    ensures ScanSquares(b, k).Some? ==> |ScanSquares(b, k).value| == 4 && InBounds(ScanSquares(b, k).value[0])
    ensures ClassicScanSquares(b, k) == SymbolOf(b, ScanSquares(b, k))
    decreases 9 - k
  {
    if k < 9 {
      ClassicSquaresAgree(b, k + 1);
      ScanSquaresStep(b, k);
      var sq := Square(k / 3, k % 3);
      UniformExclusive(b, sq);
      assert |sq| == 4 && InBounds(sq[0]);
    }
  }

  /** The game class's `check_winner` and the module-level one name the same
      winner on every board except those where no line is won, the main
      diagonal is all O and the anti-diagonal all X; there the game class
      answers X and the module answers O. */
  lemma CheckersDisagreeExactly(b: Board)
    ensures ClassicWinner(b) != CheckWinner(b) <==>
              NoLineWon(b) && Uniform(b, MainDiagonal(), O) && Uniform(b, AntiDiagonal(), X)
    ensures ClassicWinner(b) != CheckWinner(b) ==> ClassicWinner(b) == Some(X) && CheckWinner(b) == Some(O)
  {
    ClassicLinesAgree(b, 0);
    ClassicSquaresAgree(b, 0);
    ScanLinesNone(b, 0);
    UniformExclusive(b, MainDiagonal());
    UniformExclusive(b, AntiDiagonal());
    assert MainDiagonal()[0] == (0, 0);
    assert AntiDiagonal()[0] == (0, 3);
  }

  /** A shape with an empty cell is won by nobody. */
  lemma HoleBlocksWin(b: Board, pat: Pattern, k: int)
    requires 0 <= k < |pat| && InBounds(pat[k]) && At(b, pat[k]) == Empty
    ensures !Won(b, pat)
  {
  }

  /** A board on which the two checkers disagree. */
  lemma CheckersDisagreeSomewhere()
    ensures var b: Board := [[O, Empty, Empty, X], [Empty, O, X, Empty], [Empty, X, O, Empty], [X, Empty, Empty, O]];
            ClassicWinner(b) == Some(X) && CheckWinner(b) == Some(O)
  {
    var b: Board := [[O, Empty, Empty, X], [Empty, O, X, Empty], [Empty, X, O, Empty], [X, Empty, Empty, O]];
    assert Uniform(b, MainDiagonal(), O) && Uniform(b, AntiDiagonal(), X);
    HoleBlocksWin(b, Row(0), 1);
    HoleBlocksWin(b, Row(1), 0);
    HoleBlocksWin(b, Row(2), 0);
    HoleBlocksWin(b, Row(3), 1);
    HoleBlocksWin(b, Col(0), 1);
    HoleBlocksWin(b, Col(1), 0);
    HoleBlocksWin(b, Col(2), 0);
    HoleBlocksWin(b, Col(3), 1);
    CheckersDisagreeExactly(b);
  }

  /** The game class's winner is None exactly when no shape is won, and a named
      winner fills some shape. */
  lemma ClassicWinnerSound(b: Board)
    ensures ClassicWinner(b).None? <==> NoShapeWon(b)
    ensures ClassicWinner(b).Some? ==>
              exists s: Shape | ValidShape(s) :: Uniform(b, Cells(s), ClassicWinner(b).value)
  {
    CheckersDisagreeExactly(b);
    if ClassicWinner(b).Some? {
      if ClassicWinner(b) == CheckWinner(b) {
        CheckWinnerWitness(b);
        ScanOrderValid();
      } else {
        assert ValidShape(AntiShape) && Uniform(b, Cells(AntiShape), X);
      }
    }
  }

  // ---------------------------------------------------------------------------
  // Clicks
  // ---------------------------------------------------------------------------

  /** `_handle_placement_phase`. */
  function Place(s: Session, c: Coord): (r: (Session, Click))
    requires InBounds(c)
    ensures At(s.board, c) != Empty ==> r == (s, Occupied)
    ensures At(s.board, c) == Empty ==>
              && r.1 == Placed
              && At(r.0.board, c) == s.current
              && (forall d | InBounds(d) && d != c :: At(r.0.board, d) == At(s.board, d))
              && r.0.pieces.Of(s.current) == s.pieces.Of(s.current) + 1
              && r.0.pieces.Of(Other(s.current)) == s.pieces.Of(Other(s.current))
              && (r.0.pieces.BothFull() ==> r.0.phase == Movement && r.0.current == X)
              && (!r.0.pieces.BothFull() ==> r.0.phase == s.phase && r.0.current == Other(s.current))
              && r.0.(board := s.board, pieces := s.pieces, phase := s.phase, current := s.current) == s
  {
    if At(s.board, c) != Empty then (s, Occupied)
    else
      var placed := s.(board := SetCell(s.board, c, s.current), pieces := s.pieces.Inc(s.current));
      if placed.pieces.BothFull() then (placed.(phase := Movement, current := X), Placed)
      else (placed.(current := Other(s.current)), Placed)
  }

  /** `_handle_movement_phase`: select an own piece, click it again to drop the
      selection, or click an empty cell to move the selected piece there. */
  function MovementClick(s: Session, c: Coord): (r: (Session, Click))
    requires InBounds(c)
    ensures s.selected.None? && At(s.board, c) != s.current ==> r == (s, NotOwnPiece)
    ensures s.selected.None? && At(s.board, c) == s.current ==>
              r.1 == Selected && r.0.selected == Some(c) && r.0.(selected := None) == s
    ensures s.selected == Some(c) ==> r.1 == Deselected && r.0.selected.None? && r.0.(selected := s.selected) == s
    ensures s.selected.Some? && s.selected.value != c && At(s.board, c) != Empty ==> r == (s, Occupied)
    ensures s.selected.Some? && s.selected.value != c && At(s.board, c) == Empty ==>
              && At(r.0.board, c) == s.current
              && At(r.0.board, s.selected.value) == Empty
              && (forall d | InBounds(d) && d != c && d != s.selected.value :: At(r.0.board, d) == At(s.board, d))
              && r.0.selected.None?
              && r.0.pieces == s.pieces
              && (ClassicWinner(r.0.board).Some? ==>
                    && r.1 == Victory(ClassicWinner(r.0.board).value)
                    && r.0.winner == ClassicWinner(r.0.board) && r.0.pattern.None?
                    && r.0.phase == Finished && r.0.current == s.current)
              && (ClassicWinner(r.0.board).None? ==>
                    && r.1 == Moved && r.0.winner == s.winner && r.0.pattern == s.pattern
                    && r.0.phase == s.phase && r.0.current == Other(s.current))
              && r.0.(board := s.board, selected := s.selected, winner := s.winner, pattern := s.pattern,
                      phase := s.phase, current := s.current) == s
  {
    match s.selected
    case None =>
      if At(s.board, c) != s.current then (s, NotOwnPiece)
      else (s.(selected := Some(c)), Selected)
    case Some(from) =>
      if c == from then (s.(selected := None), Deselected)
      else if At(s.board, c) != Empty then (s, Occupied)
      else
        var moved := SetCell(SetCell(s.board, c, s.current), from, Empty);
        var s1 := s.(board := moved, selected := None);
        match ClassicWinner(moved)
        case Some(w) =>
          (s1.(winner := Some(w), pattern := ClassicWinningPattern(moved), phase := Finished), Victory(w))
        case None => (s1.(current := Other(s.current)), Moved)
  }

  /** `handle_callback`: dispatch on the phase; other phases change nothing. */
  function HandleCallback(s: Session, c: Coord): (r: (Session, Click))
    requires InBounds(c)
    ensures s.phase == Placement ==> r == Place(s, c)
    ensures s.phase == Movement ==> r == MovementClick(s, c)
    ensures !Live(s) ==> r == (s, Ignored)
  {
    if s.phase == Placement then Place(s, c)
    else if s.phase == Movement then MovementClick(s, c)
    else (s, Ignored)
  }

  /** `is_game_over`: a winner has been recorded or the phase is finished. */
  predicate IsGameOver(s: Session) {
    s.winner.Some? || s.phase == Finished
  }

  /** Under the bookkeeping the two tests of `is_game_over` coincide for an
      inline-keyboard game, and a game that is over ignores every click. */
  lemma GameOverMeansFinished(s: Session, c: Pos)
    requires Discipline(s) && s.kind == Classic
    ensures IsGameOver(s) <==> s.phase == Finished
    ensures IsGameOver(s) <==> s.winner.Some?
    ensures IsGameOver(s) ==> HandleCallback(s, c) == (s, Ignored)
  {
  }

  /** A commit that completes a shape ends the game, and only such a commit does. */
  lemma MovementEndsGameIffWin(s: Session, c: Pos)
    requires Discipline(s) && s.kind == Classic && s.phase == Movement
    ensures IsGameOver(MovementClick(s, c).0) <==>
              && s.selected.Some? && s.selected.value != c && At(s.board, c) == Empty
              && ClassicWinner(MovementClick(s, c).0.board).Some?
  {
  }

  // ---------------------------------------------------------------------------
  // The bookkeeping survives every click
  // ---------------------------------------------------------------------------

  lemma PlacePreservesDiscipline(s: Session, c: Coord)
    requires Discipline(s) && s.kind == Classic && s.phase == Placement && InBounds(c)
    ensures Discipline(Place(s, c).0)
  {
    if At(s.board, c) == Empty {
      SetCellCount(s.board, c, s.current, X);
      SetCellCount(s.board, c, s.current, O);
    }
  }

  /** Movement begins with the eighth placement and with no other. */
  lemma EighthPlacementStartsMovement(s: Session, c: Coord)
    requires Discipline(s) && s.phase == Placement && InBounds(c) && At(s.board, c) == Empty
    ensures Place(s, c).0.phase == Movement <==> s.pieces.x + s.pieces.o == 2 * MaxPieces - 1
    ensures Place(s, c).0.pieces.x + Place(s, c).0.pieces.o == s.pieces.x + s.pieces.o + 1
  {
  }

  /** Relocating one's own piece leaves the number of each symbol on the board unchanged. */
  lemma CommitKeepsCounts(s: Session, c: Coord)
    requires InBounds(c) && s.selected.Some?
    requires s.selected.value != c && At(s.board, c) == Empty && At(s.board, s.selected.value) == s.current
    ensures MarkCount(MovementClick(s, c).0.board, X) == MarkCount(s.board, X)
    ensures MarkCount(MovementClick(s, c).0.board, O) == MarkCount(s.board, O)
  {
    var from := s.selected.value;
    var b1 := SetCell(s.board, c, s.current);
    SetCellCount(s.board, c, s.current, X);
    SetCellCount(s.board, c, s.current, O);
    SetCellCount(b1, from, Empty, X);
    SetCellCount(b1, from, Empty, O);
  }

  lemma MovementClickPreservesDiscipline(s: Session, c: Coord)
    requires Discipline(s) && s.kind == Classic && s.phase == Movement && InBounds(c)
    ensures Discipline(MovementClick(s, c).0)
  {
    if s.selected.Some? && s.selected.value != c && At(s.board, c) == Empty {
      CommitKeepsCounts(s, c);
    }
  }

  lemma HandleCallbackPreservesDiscipline(s: Session, c: Coord)
    requires Discipline(s) && s.kind == Classic && InBounds(c)
    ensures Discipline(HandleCallback(s, c).0)
    ensures HandleCallback(s, c).0.kind == Classic
  {
    if s.phase == Placement {
      PlacePreservesDiscipline(s, c);
    } else if s.phase == Movement {
      MovementClickPreservesDiscipline(s, c);
    }
  }

  /** A run of clicks by whoever is to move. */
  function Play(s: Session, clicks: seq<Coord>): Session
    requires forall k | 0 <= k < |clicks| :: InBounds(clicks[k])
    requires Discipline(s) && s.kind == Classic
    decreases |clicks|
  {
    if |clicks| == 0 then s
    else
      HandleCallbackPreservesDiscipline(s, clicks[0]);
      Play(HandleCallback(s, clicks[0]).0, clicks[1..])
  }

  /** However the clicks go, the counters stay within 0..4 with X at most one
      ahead, and the game is in movement exactly when all eight pieces are down. */
  lemma {:induction false} PlayKeepsDiscipline(s: Session, clicks: seq<Coord>)
    requires forall k | 0 <= k < |clicks| :: InBounds(clicks[k])
    requires Discipline(s) && s.kind == Classic
    ensures Discipline(Play(s, clicks))
    ensures var t := Play(s, clicks);
            && 0 <= t.pieces.o <= t.pieces.x <= MaxPieces && t.pieces.x <= t.pieces.o + 1
            && (Live(t) ==> (t.phase == Movement <==> t.pieces.x + t.pieces.o == 2 * MaxPieces))
    decreases |clicks|
  {
    if |clicks| > 0 {
      HandleCallbackPreservesDiscipline(s, clicks[0]);
      PlayKeepsDiscipline(HandleCallback(s, clicks[0]).0, clicks[1..]);
    } else {
      DisciplineBounds(s);
    }
  }
}
