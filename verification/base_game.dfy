/**
 The turn test shared by the inline-keyboard game (src/common/base_game.py).
 `BaseGame` leaves the current player unset until a subclass chooses one, so
 the test takes it as an option.
 */
module BaseGame {
  import opened Common
  import opened Sessions

  /** `is_player_turn`: False when no player is to move or the user holds no seat;
      otherwise whether the seat to move is the user's, which raises when that
      seat's key is missing. */
  function IsPlayerTurn(players: map<Player, Option<UserId>>, current: Option<Player>, user: UserId): (r: Eval<bool>)
    ensures current.None? ==> r == Value(false)
    ensures Some(user) !in players.Values ==> r == Value(false)
    ensures current.Some? && Some(user) in players.Values ==>
              (r == Raised <==> current.value !in players)
    ensures r == Value(true) <==> current.Some? && current.value in players && players[current.value] == Some(user)
  {
    if current.None? || Some(user) !in players.Values then Value(false)
    else match Lookup(players, current.value)
      case Raised => Raised
      case Value(id) => Value(id == Some(user))
  }

  /** With two different users seated, exactly one of them has the turn. */
  lemma ExactlyOneHasTurn(players: map<Player, Option<UserId>>, current: Player, ux: UserId, uo: UserId)
    requires X in players && O in players
    requires players[X] == Some(ux) && players[O] == Some(uo) && ux != uo
    ensures IsPlayerTurn(players, Some(current), ux) == Value(current == X)
    ensures IsPlayerTurn(players, Some(current), uo) == Value(current == O)
  {
    assert players[X] in players.Values && players[O] in players.Values;
  }

  /** The turn of a session, as the inline-keyboard handler asks it. */
  function SessionTurn(s: Session, user: UserId): Eval<bool> {
    IsPlayerTurn(s.players, Some(s.current), user)
  }

  /** Under the session bookkeeping the test never raises once the game has
      left the waiting phase, and it accepts exactly the user seated at the
      current player. */
  lemma SessionTurnDefined(s: Session, user: UserId)
    requires Discipline(s) && s.phase != Waiting
    ensures SessionTurn(s, user) == Value(Get(s.players, s.current) == Some(user))
  {
    if Get(s.players, s.current) == Some(user) {
      assert s.players[s.current] in s.players.Values;
    }
  }
}
