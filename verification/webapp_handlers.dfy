/**
 The WebApp message handler `handle_webapp_data`
 (src/bot/handlers/webapp_handlers.py). It opens a `GameState` for a chat that
 has none, with the sender seated as X, then performs the requested action:
 "join" seats a second user as O, "move" hands the move to the game record,
 checks the module-level winner test and either ends the game or passes the
 turn. Any exception is swallowed with an error reply; changes already made to
 the game stay. The game found may also be an inline-keyboard game, which has
 neither the move entry point nor the action-time refresh of `GameState`.
 */
module WebAppHandlers {
  import opened Common
  import opened BoardLogic
  import opened Sessions
  import opened WebAppGame
  import opened GameHandlers

  /** The `action` field of the decoded message. */
  datatype Action = Join | Move(position: Option<int>, selected: Option<int>) | OtherAction

  datatype WebReply =
    | Announced(winner: Player)
    | Refused
    | Processed
    | Crashed

  /** The game opened for a chat without one: the sender seated as X. */
  function Fresh(user: UserId, name: Name, now: int): (s: Session)
    ensures s.kind == WebApp && s.phase == Waiting && s.current == X && s.lastActionTime == now
    ensures s.players == map[X := Some(user), O := None] && s.names == map[X := Some(name), O := None]
    ensures Discipline(s)
  {
    var g := NewGameState(now);
    EmptyBoardCounts();
    assert NoShapeWon(g.board) by {
      forall pat: Pattern, p: Player | |pat| > 0 && InBounds(pat[0]) ensures !Uniform(g.board, pat, p) {
        assert At(g.board, pat[0]) == Empty;
      }
      assert Row(0)[0] == (0, 0) && Col(0)[0] == (0, 0);
    }
    g.(players := g.players[X := Some(user)], names := g.names[X := Some(name)])
  }

  /** The get-or-create step. */
  function Opening(reg: Registry, chat: ChatId, user: UserId, name: Name, now: int): (reg': Registry)
    ensures chat in reg' && OnlyAt(reg, reg', chat)
    ensures chat in reg ==> reg' == reg
    ensures chat !in reg ==> reg'[chat] == Fresh(user, name, now)
  {
    if chat in reg then reg else reg[chat := Fresh(user, name, now)]
  }

  /** `update_last_action_time` on the stored game; only a `GameState` has it. */
  function Refresh(reg: Registry, chat: ChatId, g: Session, now: int): (r: (Registry, WebReply))
    ensures chat in r.0 && OnlyAt(reg, r.0, chat)
    ensures g.kind == WebApp ==> r == (reg[chat := g.(lastActionTime := now)], Processed)
    ensures g.kind == Classic ==> r == (reg[chat := g], Crashed)
  {
    if g.kind == WebApp then (reg[chat := g.(lastActionTime := now)], Processed)
    else (reg[chat := g], Crashed)
  }

  /** The turn bookkeeping after a successful move that did not win: the
      eighth placement opens the movement phase with X to move, every other
      move passes the turn. */
  function AfterMove(g: Session): (g': Session)
    ensures g.phase == Placement && g.pieces.BothFull() ==> g'.phase == Movement && g'.current == X
    ensures !(g.phase == Placement && g.pieces.BothFull()) ==> g'.phase == g.phase && g'.current == Other(g.current)
    ensures g'.(phase := g.phase, current := g.current) == g
  {
    if g.phase == Placement && g.pieces.BothFull() then g.(phase := Movement, current := X)
    else g.(current := Other(g.current))
  }

  /** The "join" action on the chat's game `s`: seat the sender as O when the
      O seat is empty and the sender is not X, then refresh. The joined reply
      comes before the refresh; when it fails (`replyFails`) the joined game
      is stored without the refresh and the handler fails. */
  function JoinAction(reg1: Registry, chat: ChatId, s: Session, user: UserId, name: Name, now: int, replyFails: bool)
    : (r: (Registry, WebReply))
    requires chat in reg1
    ensures chat in r.0 && OnlyAt(reg1, r.0, chat)
    ensures r.1 == Processed || r.1 == Crashed
    ensures r.1 == Processed ==> r.0[chat].kind == WebApp && r.0[chat].lastActionTime == now
    ensures O !in s.players ==> r == (reg1, Crashed)
    ensures (s.kind == WebApp && O in s.players && X in s.players
             && s.players[O].None? && Some(user) != s.players[X]) ==>
              && r.0[chat].players == s.players[O := Some(user)]
              && r.0[chat].names == s.names[O := Some(name)]
              && r.0[chat].phase == Placement
              && r.0[chat].lastActionTime == (if replyFails then s.lastActionTime else now)
              && r.0[chat].(players := s.players, names := s.names, phase := s.phase,
                            lastActionTime := s.lastActionTime) == s
              && r.1 == (if replyFails then Crashed else Processed)
    ensures (s.kind == WebApp && O in s.players && X in s.players
             && (s.players[O].Some? || Some(user) == s.players[X])) ==>
              r == (reg1[chat := s.(lastActionTime := now)], Processed)
  {
    match Lookup(s.players, O)
    case Raised => (reg1, Crashed)
    case Value(o) =>
      if o.Some? then Refresh(reg1, chat, s, now)
      else match Lookup(s.players, X)
        case Raised => (reg1, Crashed)
        case Value(x) =>
          if Some(user) != x then
            if replyFails then (reg1[chat := Joining(s, user, name)], Crashed)
            else Refresh(reg1, chat, Joining(s, user, name), now)
          else Refresh(reg1, chat, s, now)
  }

  /** The "move" action on the chat's game `s`: the turn test, the move, the
      module-level winner check, then either the end of the game or the phase
      and turn step followed by the refresh. On a win the game is marked
      finished and the winning reply sent before it is deleted; when that
      reply fails (`replyFails`) the finished game stays registered. */
  function MoveAction(reg1: Registry, chat: ChatId, s: Session, user: UserId,
                      position: Option<int>, selected: Option<int>, now: int, replyFails: bool): (r: (Registry, WebReply))
    requires chat in reg1
    ensures OnlyAt(reg1, r.0, chat)
    ensures r.1.Announced? <==> chat !in r.0
    ensures r.1 == Refused ==> r.0 == reg1
    ensures r.1.Announced? ==>
              && s.kind == WebApp && s.phase != Waiting
              && Get(s.players, s.current) == Some(user) && r.1.winner == s.current
    ensures r.1 == Processed ==> chat in r.0 && r.0[chat].kind == WebApp && r.0[chat].lastActionTime == now
    ensures s.current !in s.players ==> r == (reg1, Crashed)
    ensures s.current in s.players && s.players[s.current] != Some(user) ==> r == (reg1, Refused)
    ensures Get(s.players, s.current) == Some(user) && s.kind == Classic ==> r == (reg1, Crashed)
    ensures Get(s.players, s.current) == Some(user) && s.kind == WebApp ==>
              var m := HandleWebappMove(s, user, position, selected);
              && (m.Raised? ==> r == (reg1, Crashed))
              && (m.Value? && !m.value.1 ==> r == (reg1[chat := s.(lastActionTime := now)], Processed))
              && (m.Value? && m.value.1 && CheckWinner(m.value.0.board).Some? ==>
                    r == if replyFails then (reg1[chat := m.value.0.(phase := Finished)], Crashed)
                         else (reg1 - {chat}, Announced(s.current)))
              && (m.Value? && m.value.1 && CheckWinner(m.value.0.board).None? ==>
                    r == (reg1[chat := AfterMove(m.value.0).(lastActionTime := now)], Processed))
  {
    match Lookup(s.players, s.current)
    case Raised => (reg1, Crashed)
    case Value(id) =>
      if id != Some(user) then (reg1, Refused)
      else if s.kind == Classic then (reg1, Crashed)
      else match HandleWebappMove(s, user, position, selected)
        case Raised => (reg1, Crashed)
        case Value((g, ok)) =>
          if !ok then Refresh(reg1, chat, g, now)
          else if CheckWinner(g.board).Some? then
            assert s.kind == WebApp && g.current == s.current;
            assert s.phase == Placement || s.phase == Movement;
            if replyFails then (reg1[chat := g.(phase := Finished)], Crashed)
            else (reg1 - {chat}, Announced(g.current))
          else Refresh(reg1, chat, AfterMove(g), now)
  }

  /** `handle_webapp_data` for a message from `user` in `chat`; `replyFails`
      says whether the text reply the action sends fails. */
  function HandleWebappData(reg: Registry, chat: ChatId, user: UserId, name: Name, action: Action, now: int,
                            replyFails: bool)
    : (r: (Registry, WebReply))
    ensures OnlyAt(reg, r.0, chat)
    ensures chat !in reg ==> chat in r.0 && r.0[chat] == Fresh(user, name, now)
    ensures r.1.Announced? <==> chat !in r.0
    ensures r.1 == Refused ==> r.0 == Opening(reg, chat, user, name, now)
    ensures r.1.Announced? ==>
              && chat in reg && reg[chat].kind == WebApp && action.Move?
              && Get(reg[chat].players, reg[chat].current) == Some(user)
              && r.1.winner == reg[chat].current
    ensures r.1 == Processed ==>
              && chat in r.0 && r.0[chat].kind == WebApp && r.0[chat].lastActionTime == now
    ensures var reg1 := Opening(reg, chat, user, name, now);
            var s := reg1[chat];
            && (action == OtherAction ==> r == Refresh(reg1, chat, s, now))
            && (action == Join && s.kind == WebApp && O in s.players && X in s.players
                && s.players[O].None? && Some(user) != s.players[X] ==>
                  && r.0[chat].players == s.players[O := Some(user)]
                  && r.0[chat].names == s.names[O := Some(name)]
                  && r.0[chat].phase == Placement
                  && r.0[chat].lastActionTime == (if replyFails then s.lastActionTime else now)
                  && r.0[chat].(players := s.players, names := s.names, phase := s.phase,
                                lastActionTime := s.lastActionTime) == s)
            && (action == Join && s.kind == WebApp && O in s.players && X in s.players
                && (s.players[O].Some? || Some(user) == s.players[X]) ==>
                  r == (reg1[chat := s.(lastActionTime := now)], Processed))
            && (action.Move? && s.current in s.players && s.players[s.current] != Some(user) ==>
                  r == (reg1, Refused))
            && (action.Move? && Get(s.players, s.current) == Some(user) && s.kind == WebApp ==>
                  var m := HandleWebappMove(s, user, action.position, action.selected);
                  && (m.Raised? ==> r == (reg1, Crashed))
                  && (m.Value? && !m.value.1 ==> r == (reg1[chat := s.(lastActionTime := now)], Processed))
                  && (m.Value? && m.value.1 && CheckWinner(m.value.0.board).Some? ==>
                        r == if replyFails then (reg1[chat := m.value.0.(phase := Finished)], Crashed)
                             else (reg1 - {chat}, Announced(s.current)))
                  && (m.Value? && m.value.1 && CheckWinner(m.value.0.board).None? ==>
                        r == (reg1[chat := AfterMove(m.value.0).(lastActionTime := now)], Processed)))
  {
    var reg1 := Opening(reg, chat, user, name, now);
    var s := reg1[chat];
    match action
    case Join => JoinAction(reg1, chat, s, user, name, now, replyFails)
    case Move(position, selected) =>
      MoveAction(reg1, chat, s, user, position, selected, now, replyFails)
    case OtherAction => Refresh(reg1, chat, s, now)
  }

  // ---------------------------------------------------------------------------
  // Properties
  // ---------------------------------------------------------------------------

  /** Writing only the mover's marks and blanks onto a board without a won
      shape cannot make the opponent win. */
  lemma OnlyMoverCanWin(b: Board, b': Board, p: Player)
    requires NoShapeWon(b)
    requires forall d | InBounds(d) && At(b', d) == Other(p) :: At(b, d) == Other(p)
    ensures CheckWinner(b') != Some(Other(p))
  {
    if CheckWinner(b') == Some(Other(p)) {
      CheckWinnerWitness(b');
      var s :| s in ScanOrder() && Uniform(b', Cells(s), Other(p));
      ScanOrderValid();
      UnwonShape(b, s);
      UniformCarriesBack(b, b', Cells(s), Other(p));
      assert false;
    }
  }

  lemma UnwonShape(b: Board, s: Shape)
    requires NoShapeWon(b) && ValidShape(s)
    ensures !Won(b, Cells(s))
  {
    match s
    case RowShape(i) =>
    case ColShape(i) =>
    case MainShape =>
    case AntiShape =>
    case SquareShape(i, j) =>
  }

  lemma UniformCarriesBack(b: Board, b': Board, pat: Pattern, q: Player)
    requires forall d | InBounds(d) && At(b', d) == q :: At(b, d) == q
    requires Uniform(b', pat, q)
    ensures Uniform(b, pat, q)
  {
  }

  /** The winner the handler announces is the symbol the module-level
      `check_winner` finds on the board after the move, and the sender holds
      its seat. */
  lemma AnnouncedWinnerIsBoardWinner(reg: Registry, chat: ChatId, user: UserId, name: Name,
                                     position: Option<int>, selected: Option<int>, now: int)
    requires RegistryDiscipline(reg) && chat in reg
    requires HandleWebappData(reg, chat, user, name, Move(position, selected), now, false).1.Announced?
    ensures var s := reg[chat];
            var w := HandleWebappData(reg, chat, user, name, Move(position, selected), now, false).1.winner;
            && HandleWebappMove(s, user, position, selected).Value?
            && CheckWinner(HandleWebappMove(s, user, position, selected).value.0.board) == Some(w)
            && Get(s.players, w) == Some(user)
  {
    var s := reg[chat];
    var g := HandleWebappMove(s, user, position, selected).value.0;
    if s.phase == Placement {
      var to := BoardIndex(position.value).value;
      assert At(g.board, to) == s.current;
    }
    OnlyMoverCanWin(s.board, g.board, s.current);
    assert Other(Other(s.current)) == s.current;
  }

  /** The handler never changes an inline-keyboard game: every path either
      refuses, or raises before or at the refresh it does not have. */
  lemma ClassicGamesUntouched(reg: Registry, chat: ChatId, user: UserId, name: Name, action: Action, now: int,
                              replyFails: bool)
    requires chat in reg && reg[chat].kind == Classic && Discipline(reg[chat])
    ensures HandleWebappData(reg, chat, user, name, action, now, replyFails).0 == reg
    ensures HandleWebappData(reg, chat, user, name, action, now, replyFails).1 in {Refused, Crashed}
  {
  }

  lemma {:induction false} SuccessfulMoveKeepsDiscipline(s: Session, user: UserId, position: Option<int>,
                                                          selected: Option<int>)
    requires Discipline(s) && s.kind == WebApp
    requires HandleWebappMove(s, user, position, selected).Value? && HandleWebappMove(s, user, position, selected).value.1
    requires CheckWinner(HandleWebappMove(s, user, position, selected).value.0.board).None?
    ensures Discipline(AfterMove(HandleWebappMove(s, user, position, selected).value.0))
  {
    WebappMoveCounts(s, user, position, selected);
    DisciplineBounds(s);
  }

  lemma StoreKeepsDiscipline(reg: Registry, chat: ChatId, g: Session, now: int)
    requires RegistryDiscipline(reg) && Discipline(g)
    ensures RegistryDiscipline(reg[chat := g])
    ensures RegistryDiscipline(reg[chat := g.(lastActionTime := now)])
    ensures RegistryDiscipline(reg - {chat})
  {
  }

  /** A WebApp game left registered after a win whose reply failed: marked
      finished, with a won shape on its board. */
  ghost predicate StrandedWin(reg: Registry, chat: ChatId) {
    chat in reg && reg[chat].kind == WebApp && reg[chat].phase == Finished && CheckWinner(reg[chat].board).Some?
  }

  lemma WebJoinKeepsDiscipline(reg1: Registry, chat: ChatId, user: UserId, name: Name, now: int, replyFails: bool)
    requires RegistryDiscipline(reg1) && chat in reg1
    ensures RegistryDiscipline(JoinAction(reg1, chat, reg1[chat], user, name, now, replyFails).0)
  {
    var s := reg1[chat];
    if O in s.players && s.players[O].None? && X in s.players && Some(user) != s.players[X] {
      JoiningDisciplined(s, user, name);
      StoreKeepsDiscipline(reg1, chat, Joining(s, user, name), now);
    } else {
      StoreKeepsDiscipline(reg1, chat, s, now);
    }
  }

  /** A move keeps every other game's bookkeeping, and the moved game's too
      unless it is a win whose reply failed. */
  lemma WebMoveKeepsDiscipline(reg1: Registry, chat: ChatId, user: UserId,
                               position: Option<int>, selected: Option<int>, now: int, replyFails: bool)
    requires RegistryDiscipline(reg1) && chat in reg1
    ensures var r := MoveAction(reg1, chat, reg1[chat], user, position, selected, now, replyFails);
            && RegistryDiscipline(r.0 - {chat})
            && (RegistryDiscipline(r.0) <==> !StrandedWin(r.0, chat))
            && (StrandedWin(r.0, chat) ==> replyFails)
  {
    var s := reg1[chat];
    var m := HandleWebappMove(s, user, position, selected);
    StoreKeepsDiscipline(reg1, chat, s, now);
    if s.kind == WebApp && Get(s.players, s.current) == Some(user) && m.Value? {
      var (g, ok) := m.value;
      if ok && CheckWinner(g.board).None? {
        SuccessfulMoveKeepsDiscipline(s, user, position, selected);
        StoreKeepsDiscipline(reg1, chat, AfterMove(g), now);
      }
    }
  }

  /** Every WebApp message keeps the bookkeeping of the registry, except that a
      winning move whose reply fails leaves its finished game registered. */
  lemma HandleWebappDataKeepsDiscipline(reg: Registry, chat: ChatId, user: UserId, name: Name, action: Action, now: int,
                                        replyFails: bool)
    requires RegistryDiscipline(reg)
    ensures var r := HandleWebappData(reg, chat, user, name, action, now, replyFails);
            && RegistryDiscipline(r.0 - {chat})
            && (RegistryDiscipline(r.0) <==> !StrandedWin(r.0, chat))
            && (StrandedWin(r.0, chat) ==> replyFails && action.Move?)
  {
    var reg1 := Opening(reg, chat, user, name, now);
    assert RegistryDiscipline(reg1);
    match action
    case Join =>
      WebJoinKeepsDiscipline(reg1, chat, user, name, now, replyFails);
      StoreKeepsDiscipline(reg1, chat, reg1[chat], now);
    case Move(position, selected) => WebMoveKeepsDiscipline(reg1, chat, user, position, selected, now, replyFails);
    case OtherAction => StoreKeepsDiscipline(reg1, chat, reg1[chat], now);
  }

  /** The move that wins with a working reply strands its game when the reply
      fails: the finished game stays registered and breaks the bookkeeping. */
  lemma FailedWinReplyStrandsGame(reg: Registry, chat: ChatId, user: UserId, name: Name,
                                  position: Option<int>, selected: Option<int>, now: int)
    requires RegistryDiscipline(reg) && chat in reg
    requires HandleWebappData(reg, chat, user, name, Move(position, selected), now, false).1.Announced?
    ensures var r := HandleWebappData(reg, chat, user, name, Move(position, selected), now, true);
            && r.1 == Crashed && StrandedWin(r.0, chat) && !RegistryDiscipline(r.0)
            && r.0[chat].board == HandleWebappMove(reg[chat], user, position, selected).value.0.board
  {
  }
}
