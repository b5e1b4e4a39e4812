/**
 The second, independent set of keyboard handlers
 (src/bot/handlers/callback_handlers.py), the one the bot's entry point
 registers: the inactivity test, the "join_game" button, board clicks and the
 dispatcher between the two. They share the registry with every other
 handler but not its checks: joining never refreshes the action time, and a
 board click in the placement phase only places and passes the turn.
 */
module CallbackHandlers {
  import opened Common
  import opened BoardLogic
  import opened Sessions
  import opened TicTacToe
  import opened GameHandlers

  /** `GAME_TIMEOUT_SECONDS`: the `TIMEOUT_SECONDS` environment setting, 60 by default. */
  const GameTimeoutSeconds := 60

  /** A live game idle for strictly longer than `limit` at time `now`. */
  predicate Expired(s: Session, now: int, limit: int) {
    Live(s) && now - s.lastActionTime > limit
  }

  /** `check_inactivity`: ends the chat's game when it is live and idle for more
      than the timeout, announcing the opponent of the player to move as the
      winner. The result carries the announced winner, or None when the game
      goes on; a failed announcement (`sendFails`) propagates out of the
      function and the game stays. */
  function CheckInactivity(reg: Registry, chat: ChatId, now: int, sendFails: bool): (r: Eval<(Registry, Option<Player>)>)
    ensures r.Value? && r.value.1.Some? ==>
              && chat in reg && r.value.0 == reg - {chat} && r.value.1.value == Other(reg[chat].current)
    ensures r.Value? && r.value.1.None? ==> r.value.0 == reg
    ensures r.Value? && r.value.1.Some? <==>
              chat in reg && Expired(reg[chat], now, GameTimeoutSeconds) && !sendFails
              && Other(reg[chat].current) in reg[chat].names
    ensures r.Raised? ==> chat in reg && Expired(reg[chat], now, GameTimeoutSeconds)
    ensures chat in reg && Discipline(reg[chat]) ==>
              (r.Raised? <==> Expired(reg[chat], now, GameTimeoutSeconds) && sendFails)
  {
    if chat !in reg || !Live(reg[chat]) then Value((reg, None))
    else
      var s := reg[chat];
      if now - s.lastActionTime > GameTimeoutSeconds then
        var winner := Other(s.current);
        if winner !in s.names || sendFails then Raised
        else Value((reg - {chat}, Some(winner)))
      else Value((reg, None))
  }

  /** `handle_join_game`: the join button. The O seat is read with `players["O"]`,
      which raises on a game opened by `/start` (it has no O key). Joining sets
      the phase but not the action time. */
  function HandleJoinGame(reg: Registry, chat: ChatId, user: UserId, name: Name): (r: (Registry, Reply))
    ensures OnlyAt(reg, r.0, chat)
    ensures chat !in reg ==> r == (reg, NoGame)
    ensures chat in reg && reg[chat].phase != Waiting ==> r == (reg, NotWaiting)
    ensures chat in reg && reg[chat].phase == Waiting && Lookup(reg[chat].players, X) == Value(Some(user)) ==>
              r == (reg, SelfPlay)
    ensures chat in reg && reg[chat].phase == Waiting && X in reg[chat].players
            && reg[chat].players[X] != Some(user) && Truthy(Get(reg[chat].players, O)) ==>
              r == (reg, Full)
    ensures r.0 != reg <==>
              && chat in reg && reg[chat].phase == Waiting
              && X in reg[chat].players && reg[chat].players[X] != Some(user)
              && O in reg[chat].players && !Truthy(reg[chat].players[O])
    ensures r.0 != reg ==>
              && chat in reg && chat in r.0 && r.1 == Joined
              && r.0[chat].players == reg[chat].players[O := Some(user)]
              && r.0[chat].names == reg[chat].names[O := Some(name)]
              && r.0[chat].phase == Placement
              && r.0[chat].(players := reg[chat].players, names := reg[chat].names, phase := Waiting) == reg[chat]
  {
    if chat !in reg then (reg, NoGame)
    else
      var s := reg[chat];
      if s.phase != Waiting then (reg, NotWaiting)
      else match Lookup(s.players, X)
        case Raised => (reg, Failed)
        case Value(x) =>
          if x == Some(user) then (reg, SelfPlay)
          else match Lookup(s.players, O)
            case Raised => (reg, Failed)
            case Value(o) =>
              if Truthy(o) then (reg, Full)
              else (reg[chat := Joining(s, user, name)], Joined)
  }

  /** `handle_game_move`: a board click. In the placement phase an empty cell
      gets the mover's mark, the counter grows and the turn passes, with no
      test for the end of placement and no winner check; in every other phase
      the click changes nothing. */
  function HandleGameMove(reg: Registry, chat: ChatId, user: UserId, c: Pos): (r: (Registry, Reply))
    ensures OnlyAt(reg, r.0, chat)
    ensures chat !in reg ==> r == (reg, NoGame)
    ensures chat in reg && reg[chat].phase == Waiting ==> r == (reg, AwaitingOpponent)
    ensures r.0 != reg <==>
              && chat in reg && reg[chat].phase == Placement
              && Get(reg[chat].players, reg[chat].current) == Some(user)
              && At(reg[chat].board, c) == Empty
    ensures r.0 != reg ==>
              && chat in reg && chat in r.0 && r.1 == Played(Placed)
              && var (s, g) := (reg[chat], r.0[chat]);
                 && At(g.board, c) == s.current
                 && (forall d | InBounds(d) && d != c :: At(g.board, d) == At(s.board, d))
                 && g.pieces.Of(s.current) == s.pieces.Of(s.current) + 1
                 && g.pieces.Of(Other(s.current)) == s.pieces.Of(Other(s.current))
                 && g.current == Other(s.current) && g.phase == Placement
                 && g.(board := s.board, pieces := s.pieces, current := s.current) == s
  {
    if chat !in reg then (reg, NoGame)
    else
      var s := reg[chat];
      if s.phase == Waiting then (reg, AwaitingOpponent)
      else match Lookup(s.players, s.current)
        case Raised => (reg, Failed)
        case Value(id) =>
          if id != Some(user) then (reg, NotYourTurn)
          else if s.phase != Placement then (reg, Played(Ignored))
          else if At(s.board, c) != Empty then (reg, Played(Occupied))
          else
            var g := s.(board := SetCell(s.board, c, s.current), pieces := s.pieces.Inc(s.current),
                        current := Other(s.current));
            (reg[chat := g], Played(Placed))
  }

  /** The data a board button carries: the join button or a cell. */
  datatype ButtonData = JoinGame | CellButton(cell: Pos)

  /** `button_click`: dispatch on the callback data. */
  function ButtonClick(reg: Registry, chat: ChatId, user: UserId, name: Name, data: ButtonData): (r: (Registry, Reply))
    ensures OnlyAt(reg, r.0, chat)
    ensures data == JoinGame ==> r == HandleJoinGame(reg, chat, user, name)
    ensures data.CellButton? ==> r == HandleGameMove(reg, chat, user, data.cell)
  {
    match data
    case JoinGame => HandleJoinGame(reg, chat, user, name)
    case CellButton(c) => HandleGameMove(reg, chat, user, c)
  }

  // ---------------------------------------------------------------------------
  // What these handlers keep and what they break
  // ---------------------------------------------------------------------------

  lemma CheckInactivityKeepsDiscipline(reg: Registry, chat: ChatId, now: int, sendFails: bool)
    requires RegistryDiscipline(reg)
    ensures CheckInactivity(reg, chat, now, sendFails).Value? ==>
              RegistryDiscipline(CheckInactivity(reg, chat, now, sendFails).value.0)
  {
  }

  lemma HandleJoinGameKeepsDiscipline(reg: Registry, chat: ChatId, user: UserId, name: Name)
    requires RegistryDiscipline(reg)
    ensures RegistryDiscipline(HandleJoinGame(reg, chat, user, name).0)
  {
    if chat in reg && reg[chat].phase == Waiting && X in reg[chat].players && reg[chat].players[X] != Some(user) {
      JoiningDisciplined(reg[chat], user, name);
    }
  }

  /** The join button can never seat anyone in a game opened by `/start`:
      reading its missing O key raises. */
  lemma JoinButtonNeverJoinsStartedGame(reg: Registry, chat: ChatId, ux: UserId, nx: Name, t: int,
                                        msg: Option<MessageId>, user: UserId, name: Name)
    requires chat !in reg || reg[chat].phase == Finished
    ensures var reg1 := Start(reg, chat, false, ux, nx, t, msg).0;
            && chat in reg1
            && HandleJoinGame(reg1, chat, user, name).0 == reg1
            && HandleJoinGame(reg1, chat, user, name).1 in {Failed, SelfPlay, NotWaiting}
  {
  }

  /** On an inline-keyboard game a board click through this handler keeps the
      bookkeeping up to the seventh placement and breaks it with the eighth:
      the counters reach four each while the phase stays placement with X to
      move, so the movement phase is never entered. */
  lemma PlacementNeverEnds(reg: Registry, chat: ChatId, user: UserId, c: Pos)
    requires RegistryDiscipline(reg) && chat in reg && reg[chat].phase == Placement
    requires Get(reg[chat].players, reg[chat].current) == Some(user) && At(reg[chat].board, c) == Empty
    ensures var g := HandleGameMove(reg, chat, user, c).0[chat];
            && g.phase == Placement
            && (reg[chat].kind == Classic && reg[chat].pieces.x + reg[chat].pieces.o < 2 * MaxPieces - 1 ==>
                  Discipline(g))
            && (reg[chat].pieces.x + reg[chat].pieces.o == 2 * MaxPieces - 1 ==>
                  g.pieces.BothFull() && g.current == X && !Discipline(g))
  {
    var s := reg[chat];
    DisciplineBounds(s);
    SetCellCount(s.board, c, s.current, X);
    SetCellCount(s.board, c, s.current, O);
    var g := HandleGameMove(reg, chat, user, c).0[chat];
    assert g.pieces == s.pieces.Inc(s.current);
    if s.pieces.x + s.pieces.o == 2 * MaxPieces - 1 {
      assert s.current == O;
      assert !Discipline(g);
    }
  }

  /** After that, X's next click on an empty cell is a fifth X piece. */
  lemma FifthPiece(s: Session, chat: ChatId, user: UserId, c: Pos)
    requires s.phase == Placement && s.pieces == Pieces(MaxPieces, MaxPieces) && s.current == X
    requires Get(s.players, X) == Some(user) && At(s.board, c) == Empty
    ensures var g := HandleGameMove(map[chat := s], chat, user, c).0[chat];
            g.pieces.x == MaxPieces + 1 && g.phase == Placement
  {
  }
}
