/**
 The command and keyboard handlers of the inline-keyboard game
 (src/games/tictactoe_4x4/handlers.py): `/start`, `/join` and the board-button
 callback. Each takes the registry of games and returns the new registry with
 the reply it gave, reduced to its meaning. Every handler wraps its body in a
 broad `except`: an exception ends it with an error reply, and whatever it had
 already written to the game stays written.
 */
module GameHandlers {
  import opened Common
  import opened BoardLogic
  import opened Sessions
  import opened BaseGame
  import opened TicTacToe

  datatype Reply =
    | PrivateChat
    | InProgress
    | Started
    | NoGame
    | NotWaiting
    | Full
    | SelfPlay
    | Joined
    | AwaitingOpponent
    | AlreadyFinished
    | NotYourTurn
    | Played(click: Click)
    | Failed

  /** The game `/start` registers: X seated with the caller's id and name, the
      O name entry present but empty, no O seat. */
  function Opened(user: UserId, name: Name, now: int, msg: Option<MessageId>): Session {
    NewClassic().(players := map[X := Some(user)], names := map[X := Some(name), O := None],
                  phase := Waiting, lastActionTime := now, messageId := msg)
  }

  /** `start_command`. `msg` is the id of the welcome message, or None when
      sending it failed (the game is registered by then). */
  function Start(reg: Registry, chat: ChatId, isPrivate: bool, user: UserId, name: Name, now: int,
                 msg: Option<MessageId>): (r: (Registry, Reply))
    ensures isPrivate ==> r == (reg, PrivateChat)
    ensures !isPrivate && chat in reg && reg[chat].phase != Finished ==> r == (reg, InProgress)
    ensures !isPrivate && (chat !in reg || reg[chat].phase == Finished) ==>
              && chat in r.0 && OnlyAt(reg, r.0, chat)
              && var g := r.0[chat];
                 && g.kind == Classic && g.phase == Waiting && g.current == X
                 && Get(g.players, X) == Some(user) && O !in g.players
                 && g.names == map[X := Some(name), O := None]
                 && g.pieces == Pieces(0, 0) && (forall c | InBounds(c) :: At(g.board, c) == Empty)
                 && g.selected.None? && g.winner.None?
                 && g.lastActionTime == now && g.messageId == msg
                 && r.1 == (if msg.Some? then Started else Failed)
  {
    if isPrivate then (reg, PrivateChat)
    else if chat in reg && reg[chat].phase != Finished then (reg, InProgress)
    else (reg[chat := Opened(user, name, now, msg)], if msg.Some? then Started else Failed)
  }

  /** Seating `user` as O and starting the placement phase. */
  function Joining(s: Session, user: UserId, name: Name): Session {
    s.(players := s.players[O := Some(user)], names := s.names[O := Some(name)], phase := Placement)
  }

  /** A second user joining a waiting game keeps the bookkeeping. */
  lemma JoiningDisciplined(s: Session, user: UserId, name: Name)
    requires Discipline(s) && s.phase == Waiting && Get(s.players, X) != Some(user)
    ensures Discipline(Joining(s, user, name))
    ensures Joining(s, user, name).current == X && Joining(s, user, name).pieces == Pieces(0, 0)
  {
  }

  /** `join_command`. On a WebApp game the seat is taken and the phase set
      before building the keyboard raises, so the game changes and the reply
      is an error. */
  function JoinCommand(reg: Registry, chat: ChatId, isPrivate: bool, user: UserId, name: Name, now: int)
    : (r: (Registry, Reply))
    ensures OnlyAt(reg, r.0, chat)
    ensures isPrivate ==> r == (reg, PrivateChat)
    ensures !isPrivate && chat !in reg ==> r == (reg, NoGame)
    ensures !isPrivate && chat in reg && reg[chat].phase != Waiting ==> r == (reg, NotWaiting)
    ensures !isPrivate && chat in reg && reg[chat].phase == Waiting && Truthy(Get(reg[chat].players, O)) ==>
              r == (reg, Full)
    ensures r.0 != reg <==>
              && !isPrivate && chat in reg && reg[chat].phase == Waiting
              && !Truthy(Get(reg[chat].players, O))
              && X in reg[chat].players && reg[chat].players[X] != Some(user)
    ensures r.0 != reg ==>
              && chat in reg && chat in r.0
              && var (s, g) := (reg[chat], r.0[chat]);
                 && g.players == s.players[O := Some(user)] && g.names == s.names[O := Some(name)]
                 && g.phase == Placement && g.lastActionTime == now
                 && g.(players := s.players, names := s.names, phase := s.phase, lastActionTime := s.lastActionTime) == s
                 && r.1 == (if s.kind == Classic then Joined else Failed)
  {
    if isPrivate then (reg, PrivateChat)
    else if chat !in reg then (reg, NoGame)
    else
      var s := reg[chat];
      if s.phase != Waiting then (reg, NotWaiting)
      else if Truthy(Get(s.players, O)) then (reg, Full)
      else match Lookup(s.players, X)
        case Raised => (reg, Failed)
        case Value(x) =>
          if x == Some(user) then (reg, SelfPlay)
          else (reg[chat := Joining(s, user, name).(lastActionTime := now)],
                if s.kind == Classic then Joined else Failed)
  }

  /** `button_callback`: refuses clicks on a missing, waiting or finished game
      and clicks by anyone but the player to move; a WebApp game has no turn
      test and raises; otherwise the action time is refreshed and the click
      goes to the game. */
  function ButtonCallback(reg: Registry, chat: ChatId, user: UserId, c: Pos, now: int): (r: (Registry, Reply))
    ensures OnlyAt(reg, r.0, chat)
    ensures chat !in reg ==> r == (reg, NoGame)
    ensures chat in reg && reg[chat].phase == Waiting ==> r == (reg, AwaitingOpponent)
    ensures chat in reg && reg[chat].phase == Finished ==> r == (reg, AlreadyFinished)
    ensures chat in reg && Live(reg[chat]) && reg[chat].kind == WebApp ==> r == (reg, Failed)
    ensures chat in reg && Live(reg[chat]) && reg[chat].kind == Classic ==>
              (r.1.Played? <==> Get(reg[chat].players, reg[chat].current) == Some(user))
    ensures r.1.Played? ==>
              && chat in reg && chat in r.0
              && r.0[chat].lastActionTime == now
              && (r.0[chat], r.1.click) == HandleCallback(reg[chat].(lastActionTime := now), c)
    ensures !r.1.Played? ==> r.0 == reg
  {
    if chat !in reg then (reg, NoGame)
    else
      var s := reg[chat];
      if s.phase == Waiting then (reg, AwaitingOpponent)
      else if s.phase == Finished then (reg, AlreadyFinished)
      else if s.kind == WebApp then (reg, Failed)
      else match SessionTurn(s, user)
        case Raised => (reg, Failed)
        case Value(ok) =>
          if !ok then (reg, NotYourTurn)
          else
            var (g, click) := HandleCallback(s.(lastActionTime := now), c);
            (reg[chat := g], Played(click))
  }

  // ---------------------------------------------------------------------------
  // The registry bookkeeping survives every handler
  // ---------------------------------------------------------------------------

  lemma StartKeepsDiscipline(reg: Registry, chat: ChatId, isPrivate: bool, user: UserId, name: Name, now: int,
                             msg: Option<MessageId>)
    requires RegistryDiscipline(reg)
    ensures RegistryDiscipline(Start(reg, chat, isPrivate, user, name, now, msg).0)
  {
    EmptyBoardCounts();
  }

  lemma JoinCommandKeepsDiscipline(reg: Registry, chat: ChatId, isPrivate: bool, user: UserId, name: Name, now: int)
    requires RegistryDiscipline(reg)
    ensures RegistryDiscipline(JoinCommand(reg, chat, isPrivate, user, name, now).0)
  {
    if !isPrivate && chat in reg && reg[chat].phase == Waiting && X in reg[chat].players
       && reg[chat].players[X] != Some(user) {
      JoiningDisciplined(reg[chat], user, name);
    }
  }

  lemma ButtonCallbackKeepsDiscipline(reg: Registry, chat: ChatId, user: UserId, c: Pos, now: int)
    requires RegistryDiscipline(reg)
    ensures RegistryDiscipline(ButtonCallback(reg, chat, user, c, now).0)
  {
    if chat in reg && reg[chat].kind == Classic {
      HandleCallbackPreservesDiscipline(reg[chat].(lastActionTime := now), c);
    }
  }

  /** Under the bookkeeping, a board click on a live inline-keyboard game is
      played exactly when it comes from the user seated at the player to move. */
  lemma OnlyTheMoverPlays(reg: Registry, chat: ChatId, user: UserId, c: Pos, now: int)
    requires RegistryDiscipline(reg) && chat in reg && Live(reg[chat]) && reg[chat].kind == Classic
    ensures ButtonCallback(reg, chat, user, c, now).1.Played? <==> Get(reg[chat].players, reg[chat].current) == Some(user)
  {
    SessionTurnDefined(reg[chat], user);
  }

  /** `/start` followed by `/join` from a different user seats both players
      and opens the placement phase with X to move. */
  lemma StartThenJoin(reg: Registry, chat: ChatId, ux: UserId, nx: Name, uo: UserId, no: Name,
                      t0: int, t1: int, msg: MessageId)
    requires chat !in reg && ux != uo
    ensures var (reg1, a) := Start(reg, chat, false, ux, nx, t0, Some(msg));
            var (reg2, b) := JoinCommand(reg1, chat, false, uo, no, t1);
            && a == Started && b == Joined && chat in reg2
            && reg2[chat].phase == Placement && reg2[chat].current == X
            && reg2[chat].players == map[X := Some(ux), O := Some(uo)]
            && reg2[chat].names == map[X := Some(nx), O := Some(no)]
            && reg2[chat].lastActionTime == t1
            && Discipline(reg2[chat])
  {
    EmptyBoardCounts();
    var (reg1, a) := Start(reg, chat, false, ux, nx, t0, Some(msg));
    assert Discipline(reg1[chat]);
    JoiningDisciplined(reg1[chat], uo, no);
  }
}
