/**
 The WebApp game record `GameState` (src/games/models/game_state.py): creation,
 the move entry point `handle_webapp_move` with its two private helpers, and the
 `to_dict` snapshot sent to the players, together with the decoder that reads a
 snapshot back.

 Positions arrive from the WebApp as JSON values; the model takes them as
 optional integers (`None` for a missing or null field). Python evaluates
 `board[p // 4][p % 4]` with floor division and negative indexing, so a
 position in -16..15 names a cell (the negative ones wrap round once) and any
 other raises `IndexError`; a `None` position raises `TypeError` when divided.
 */
module WebAppGame {
  import opened Common
  import opened BoardLogic
  import opened Sessions

  /** `GameState(chat_id)`: both seats and names present but unset, waiting,
      X to move; `now` stands for the event-loop clock. */
  function NewGameState(now: int): (s: Session)
    ensures s.kind == WebApp && s.phase == Waiting && s.current == X && s.lastActionTime == now
    ensures s.players == map[X := None, O := None] && s.names == map[X := None, O := None]
    ensures forall c | InBounds(c) :: At(s.board, c) == Empty
    ensures MarkCount(s.board, X) == 0 && MarkCount(s.board, O) == 0
    ensures s.pieces == Pieces(0, 0) && s.selected.None? && s.messageId.None?
    ensures s.winner.None? && s.pattern.None?
  {
    EmptyBoardCounts();
    Session(WebApp, EmptyBoard, Pieces(0, 0), X, map[X := None, O := None], map[X := None, O := None],
            Waiting, None, None, None, now, None)
  }

  /** The cell `board[p // 4][p % 4]` reaches, or None where the row index is
      out of range and Python raises. */
  function BoardIndex(p: int): (c: Option<Coord>)
    ensures c.Some? <==> -BoardSize * BoardSize <= p < BoardSize * BoardSize
    ensures c.Some? ==> InBounds(c.value) && (Index(c.value) == p || Index(c.value) == p + BoardSize * BoardSize)
  {
    if -16 <= p < 16 then Some(CellOf(p % 16)) else None
  }

  /** `s'` is `s` with the mover's mark newly written on the empty cell `c`
      and the mover's counter raised; nothing else differs. */
  ghost predicate PlacedAt(s: Session, s': Session, c: Coord) {
    && InBounds(c)
    && At(s.board, c) == Empty
    && At(s'.board, c) == s.current
    && (forall d | InBounds(d) && d != c :: At(s'.board, d) == At(s.board, d))
    && s'.pieces == s.pieces.Inc(s.current)
    && s'.(board := s.board, pieces := s.pieces) == s
  }

  /** `s'` is `s` with one of the mover's marks carried from `from` to the
      empty cell `to`; counters and everything else are unchanged. */
  ghost predicate MovedFromTo(s: Session, s': Session, from: Coord, to: Coord) {
    && InBounds(from) && InBounds(to)
    && At(s.board, from) == s.current
    && At(s.board, to) == Empty
    && At(s'.board, from) == Empty
    && At(s'.board, to) == s.current
    && (forall d | InBounds(d) && d != from && d != to :: At(s'.board, d) == At(s.board, d))
    && s'.(board := s.board) == s
  }

  /** `handle_webapp_move`: the user must hold the seat to move; a placement
      fills an empty cell; a movement needs a selected cell holding the mover's
      mark and an empty target; every refusal leaves the game as it was. */
  function HandleWebappMove(s: Session, user: UserId, position: Option<int>, selected: Option<int>)
    : (r: Eval<(Session, bool)>)
    ensures r.Value? && !r.value.1 ==> r.value.0 == s
    ensures r.Value? && r.value.1 ==>
              && Get(s.players, s.current) == Some(user)
              && position.Some? && BoardIndex(position.value).Some?
              && var to := BoardIndex(position.value).value;
                 || (s.phase == Placement && PlacedAt(s, r.value.0, to))
                 || (s.phase == Movement && selected.Some? && BoardIndex(selected.value).Some?
                     && MovedFromTo(s, r.value.0, BoardIndex(selected.value).value, to))
    ensures s.current in s.players && s.players[s.current] != Some(user) ==> r == Value((s, false))
    ensures (&& s.current in s.players && position.Some? && BoardIndex(position.value).Some?
             && (selected.Some? ==> BoardIndex(selected.value).Some?)) ==> r.Value?
    ensures s.current in s.players && s.players[s.current] == Some(user) && s.phase == Placement
            && position.Some? && BoardIndex(position.value).Some? && At(s.board, BoardIndex(position.value).value) == Empty
            ==> r.Value? && r.value.1
    ensures s.current in s.players && s.players[s.current] == Some(user) && s.phase == Movement
            && position.Some? && BoardIndex(position.value).Some? && selected.Some? && BoardIndex(selected.value).Some?
            && At(s.board, BoardIndex(selected.value).value) == s.current
            && At(s.board, BoardIndex(position.value).value) == Empty
            ==> r.Value? && r.value.1 && MovedFromTo(s, r.value.0, BoardIndex(selected.value).value, BoardIndex(position.value).value)
  {
    match Lookup(s.players, s.current)
    case Raised => Raised
    case Value(id) =>
      if Some(user) != id then Value((s, false))
      else if position.None? then Raised
      else if s.phase == Placement then
        match BoardIndex(position.value)
        case None => Raised
        case Some(c) =>
          if At(s.board, c) != Empty then Value((s, false))
          else Value((s.(board := SetCell(s.board, c, s.current), pieces := s.pieces.Inc(s.current)), true))
      else if s.phase == Movement && selected.Some? then
        match BoardIndex(selected.value)
        case None => Raised
        case Some(from) =>
          if At(s.board, from) != s.current then Value((s, false))
          else match BoardIndex(position.value)
            case None => Raised
            case Some(to) =>
              if At(s.board, to) != Empty then Value((s, false))
              else Value((s.(board := SetCell(SetCell(s.board, from, Empty), to, s.current)), true))
      else Value((s, false))
  }

  /** `_handle_placement`: the placement step without the turn and phase tests. */
  function PlaceAt(s: Session, position: Option<int>): (r: Eval<(Session, bool)>)
    ensures r.Value? && !r.value.1 ==> r.value.0 == s
    ensures r.Value? && r.value.1 ==>
              position.Some? && BoardIndex(position.value).Some? && PlacedAt(s, r.value.0, BoardIndex(position.value).value)
    ensures r.Raised? <==> position.None? || BoardIndex(position.value).None?
    ensures position.Some? && BoardIndex(position.value).Some? && At(s.board, BoardIndex(position.value).value) == Empty
            ==> r.Value? && r.value.1 && PlacedAt(s, r.value.0, BoardIndex(position.value).value)
  {
    if position.None? then Raised
    else match BoardIndex(position.value)
      case None => Raised
      case Some(c) =>
        if At(s.board, c) != Empty then Value((s, false))
        else Value((s.(board := SetCell(s.board, c, s.current), pieces := s.pieces.Inc(s.current)), true))
  }

  /** `_handle_movement`: the movement step without the turn and phase tests;
      unlike the entry point it tests for a missing selection before it
      divides the position. */
  function MoveFrom(s: Session, position: Option<int>, selected: Option<int>): (r: Eval<(Session, bool)>)
    ensures selected.None? ==> r == Value((s, false))
    ensures r.Value? && !r.value.1 ==> r.value.0 == s
    ensures r.Value? && r.value.1 ==>
              && selected.Some? && BoardIndex(selected.value).Some?
              && position.Some? && BoardIndex(position.value).Some?
              && MovedFromTo(s, r.value.0, BoardIndex(selected.value).value, BoardIndex(position.value).value)
    ensures position.Some? && BoardIndex(position.value).Some? && selected.Some? && BoardIndex(selected.value).Some?
            && At(s.board, BoardIndex(selected.value).value) == s.current
            && At(s.board, BoardIndex(position.value).value) == Empty
            ==> r.Value? && r.value.1
  {
    if selected.None? then Value((s, false))
    else if position.None? then Raised
    else match BoardIndex(selected.value)
      case None => Raised
      case Some(from) =>
        if At(s.board, from) != s.current then Value((s, false))
        else match BoardIndex(position.value)
          case None => Raised
          case Some(to) =>
            if At(s.board, to) != Empty then Value((s, false))
            else Value((s.(board := SetCell(SetCell(s.board, from, Empty), to, s.current)), true))
  }

  /** Once the turn test passes, the entry point does what the private helper
      of its phase does, except that a movement request carrying neither a
      position nor a selection raises in the entry point and is refused by the
      helper. */
  lemma WebappMoveDelegates(s: Session, user: UserId, position: Option<int>, selected: Option<int>)
    requires Get(s.players, s.current) == Some(user)
    ensures s.phase == Placement ==> HandleWebappMove(s, user, position, selected) == PlaceAt(s, position)
    ensures s.phase == Movement && position.Some? ==>
              HandleWebappMove(s, user, position, selected) == MoveFrom(s, position, selected)
    ensures s.phase == Movement && position.None? && selected.None? ==>
              HandleWebappMove(s, user, position, selected).Raised? && MoveFrom(s, position, selected).Value?
  {
  }

  /** A successful move changes the number of marks on the board the way the
      counters say: a placement adds one of the mover's marks, a relocation
      none. */
  lemma WebappMoveCounts(s: Session, user: UserId, position: Option<int>, selected: Option<int>)
    requires HandleWebappMove(s, user, position, selected).Value?
    ensures var (s', ok) := HandleWebappMove(s, user, position, selected).value;
            && MarkCount(s'.board, X) - MarkCount(s.board, X) == s'.pieces.x - s.pieces.x
            && MarkCount(s'.board, O) - MarkCount(s.board, O) == s'.pieces.o - s.pieces.o
  {
    var (s', ok) := HandleWebappMove(s, user, position, selected).value;
    if ok {
      var to := BoardIndex(position.value).value;
      if s.phase == Placement {
        SetCellCount(s.board, to, s.current, X);
        SetCellCount(s.board, to, s.current, O);
      } else {
        var from := BoardIndex(selected.value).value;
        var b1 := SetCell(s.board, from, Empty);
        SetCellCount(s.board, from, Empty, X);
        SetCellCount(s.board, from, Empty, O);
        SetCellCount(b1, to, s.current, X);
        SetCellCount(b1, to, s.current, O);
      }
    }
  }

  // ---------------------------------------------------------------------------
  // to_dict and its reader
  // ---------------------------------------------------------------------------

  datatype PlayerInfo = PlayerInfo(id: Option<UserId>, name: Option<Name>)

  /** The dictionary `to_dict` builds: string cells, the current player and the
      phase as strings, the `pieces` dictionary and one record per seat. */
  datatype Snapshot = Snapshot(
    board: seq<seq<string>>,
    currentPlayer: string,
    phase: string,
    piecesPlaced: map<string, int>,
    players: map<string, PlayerInfo>)

  function CellName(c: Cell): string {
    match c
    case Empty => " "
    case X => "X"
    case O => "O"
  }

  function PhaseName(p: Phase): string {
    match p
    case Waiting => "waiting"
    case Placement => "placement"
    case Movement => "movement"
    case Finished => "finished"
  }

  function ParseCell(t: string): Option<Cell> {
    if t == " " then Some(Empty)
    else if t == "X" then Some(X)
    else if t == "O" then Some(O)
    else None
  }

  function ParsePlayer(t: string): Option<Player> {
    if t == "X" then Some(X)
    else if t == "O" then Some(O)
    else None
  }

  function ParsePhase(t: string): Option<Phase> {
    if t == "waiting" then Some(Waiting)
    else if t == "placement" then Some(Placement)
    else if t == "movement" then Some(Movement)
    else if t == "finished" then Some(Finished)
    else None
  }

  function RowNames(row: seq<Cell>): (r: seq<string>)
    ensures |r| == |row|
  {
    seq(|row|, k requires 0 <= k < |row| => CellName(row[k]))
  }

  function BoardNames(b: Board): (r: seq<seq<string>>)
    ensures |r| == 4
  {
    seq(4, i requires 0 <= i < 4 => RowNames(b[i]))
  }

  function ParseRow(names: seq<string>): (r: Option<seq<Cell>>)
    ensures r.Some? ==> |r.value| == |names|
  {
    if |names| == 0 then Some([])
    else match (ParseCell(names[0]), ParseRow(names[1..]))
      case (Some(c), Some(rest)) => Some([c] + rest)
      case _ => None
  }

  function ParseBoard(rows: seq<seq<string>>): Option<Board> {
    if |rows| != 4 then None
    else match (ParseRow(rows[0]), ParseRow(rows[1]), ParseRow(rows[2]), ParseRow(rows[3]))
      case (Some(r0), Some(r1), Some(r2), Some(r3)) =>
        if |r0| == 4 && |r1| == 4 && |r2| == 4 && |r3| == 4 then Some([r0, r1, r2, r3]) else None
      case _ => None
  }

  /** What a snapshot carries of a game. */
  datatype View = View(
    board: Board,
    current: Player,
    phase: Phase,
    pieces: Pieces,
    ids: (Option<UserId>, Option<UserId>),
    names: (Option<Name>, Option<Name>))

  /** Both seats and both name entries present, as `to_dict` reads them. */
  predicate HasSeats(s: Session) {
    X in s.players && O in s.players && X in s.names && O in s.names
  }

  function ViewOf(s: Session): View
    requires HasSeats(s)
  {
    View(s.board, s.current, s.phase, s.pieces, (s.players[X], s.players[O]), (s.names[X], s.names[O]))
  }

  /** `to_dict`. */
  function ToDict(s: Session): (d: Snapshot)
    requires HasSeats(s)
    ensures |d.board| == 4 && forall i | 0 <= i < 4 :: |d.board[i]| == 4
    ensures d.piecesPlaced.Keys == {"X", "O"} && d.players.Keys == {"X", "O"}
  {
    Snapshot(BoardNames(s.board), CellName(s.current), PhaseName(s.phase),
             map["X" := s.pieces.x, "O" := s.pieces.o],
             map["X" := PlayerInfo(s.players[X], s.names[X]), "O" := PlayerInfo(s.players[O], s.names[O])])
  }

  /** Reads a snapshot back; None when any field is missing or malformed. */
  function FromSnapshot(d: Snapshot): Option<View> {
    match (ParseBoard(d.board), ParsePlayer(d.currentPlayer), ParsePhase(d.phase))
    case (Some(b), Some(p), Some(ph)) =>
      if "X" in d.piecesPlaced && "O" in d.piecesPlaced && "X" in d.players && "O" in d.players then
        Some(View(b, p, ph, Pieces(d.piecesPlaced["X"], d.piecesPlaced["O"]),
                  (d.players["X"].id, d.players["O"].id), (d.players["X"].name, d.players["O"].name)))
      else None
    case _ => None
  }

  lemma {:induction false} RowRoundTrip(row: seq<Cell>)
    ensures ParseRow(RowNames(row)) == Some(row)
    decreases |row|
  {
    if |row| > 0 {
      assert RowNames(row)[1..] == RowNames(row[1..]);
      RowRoundTrip(row[1..]);
      assert [row[0]] + row[1..] == row;
    }
  }

  lemma BoardRoundTrip(b: Board)
    ensures ParseBoard(BoardNames(b)) == Some(b)
  {
    var names := BoardNames(b);
    RowRoundTrip(b[0]);
    RowRoundTrip(b[1]);
    RowRoundTrip(b[2]);
    RowRoundTrip(b[3]);
    assert names[0] == RowNames(b[0]) && names[1] == RowNames(b[1]);
    assert names[2] == RowNames(b[2]) && names[3] == RowNames(b[3]);
    assert [b[0], b[1], b[2], b[3]] == b;
  }

  lemma NamesRoundTrip(p: Player, ph: Phase)
    ensures ParsePlayer(CellName(p)) == Some(p)
    ensures ParsePhase(PhaseName(ph)) == Some(ph)
  {
  }

  /** Every game state survives `to_dict` and back. */
  lemma SnapshotRoundTrip(s: Session)
    requires HasSeats(s)
    ensures FromSnapshot(ToDict(s)) == Some(ViewOf(s))
  {
    BoardRoundTrip(s.board);
    NamesRoundTrip(s.current, s.phase);
    var d := ToDict(s);
    assert d.piecesPlaced["X"] == s.pieces.x && d.piecesPlaced["O"] == s.pieces.o;
    assert d.players["X"] == PlayerInfo(s.players[X], s.names[X]);
    assert d.players["O"] == PlayerInfo(s.players[O], s.names[O]);
  }

  /** Two game states with the same snapshot agree on everything the snapshot shows. */
  lemma SnapshotInjective(s: Session, t: Session)
    requires HasSeats(s) && HasSeats(t) && ToDict(s) == ToDict(t)
    ensures ViewOf(s) == ViewOf(t)
  {
    SnapshotRoundTrip(s);
    SnapshotRoundTrip(t);
  }
}
