/**
 One game session and the per-chat registry of sessions. The original keeps two
 game classes in the same registry: `TicTacToe4x4` (the inline-keyboard game,
 built on `BaseGame`) and `GameState` (the WebApp game). A session records
 which of the two it is, because a handler written for one class raises on the
 other (a missing attribute or dictionary key), and the handlers swallow that.
 */
module Sessions {
  import opened Common
  import opened BoardLogic

  type UserId = int
  type Name = string
  type MessageId = int
  type ChatId = int

  datatype Kind = Classic | WebApp

  datatype Session = Session(
    kind: Kind,
    board: Board,
    pieces: Pieces,
    current: Player,
    /** A key is absent until bound in a `TicTacToe4x4`; a `GameState` holds both keys, possibly None. */
    players: map<Player, Option<UserId>>,
    names: map<Player, Option<Name>>,
    phase: Phase,
    selected: Option<Pos>,
    /** Only `TicTacToe4x4` has these two; a `GameState` keeps them None. */
    winner: Option<Player>,
    pattern: Option<Pattern>,
    lastActionTime: int,
    messageId: Option<MessageId>)

  /** `players[p]`: raises when the key is absent. */
  function Lookup(players: map<Player, Option<UserId>>, p: Player): Eval<Option<UserId>> {
    if p in players then Value(players[p]) else Raised
  }

  /** `players.get(p)`: None when the key is absent. */
  function Get(players: map<Player, Option<UserId>>, p: Player): Option<UserId> {
    if p in players then players[p] else None
  }

  /** Python truthiness of an optional user id: None and 0 are false. */
  predicate Truthy(id: Option<UserId>) {
    id.Some? && id.value != 0
  }

  /** A game in progress: neither waiting for an opponent nor finished. */
  predicate Live(s: Session) {
    s.phase == Placement || s.phase == Movement
  }

  predicate Bound(s: Session, p: Player) {
    Get(s.players, p).Some?
  }

  /** The bookkeeping the engine maintains for every session it creates:
      board marks agree with the counters, placements alternate starting with X,
      the movement phase holds all eight pieces, both seats are taken (by two
      different users) once the game leaves the waiting phase, an
      inline-keyboard game has no seat key without a user, both seats have a
      name entry, a selection is one of the mover's own pieces, a winner
      exists only in a finished inline-keyboard game, and a stored WebApp game
      has no selection and a board without a win-shape. */
  ghost predicate Discipline(s: Session) {
    && MarkCount(s.board, X) == s.pieces.x
    && MarkCount(s.board, O) == s.pieces.o
    && (s.phase == Waiting ==> s.pieces == Pieces(0, 0) && s.current == X && !Bound(s, O))
    && (s.phase == Placement ==>
          || (s.current == X && s.pieces.x == s.pieces.o && s.pieces.x < MaxPieces)
          || (s.current == O && s.pieces.x == s.pieces.o + 1 && s.pieces.x <= MaxPieces))
    && (s.phase == Movement || s.phase == Finished ==> s.pieces.BothFull())
    && Bound(s, X)
    && (s.phase != Waiting ==> Bound(s, O) && Get(s.players, X) != Get(s.players, O))
    && X in s.names && O in s.names
    && (s.kind == Classic ==> forall p | p in s.players :: s.players[p].Some?)
    && (s.selected.Some? ==> s.phase == Movement && At(s.board, s.selected.value) == s.current)
    && (s.winner.Some? <==> s.kind == Classic && s.phase == Finished)
    && (s.kind == WebApp ==> NoShapeWon(s.board) && s.phase != Finished && s.selected.None?)
  }

  /** Counters never leave 0..4 and X leads by at most one placement. */
  lemma DisciplineBounds(s: Session)
    requires Discipline(s)
    ensures 0 <= s.pieces.o <= s.pieces.x <= MaxPieces && s.pieces.x <= s.pieces.o + 1
    ensures s.phase == Placement ==> s.pieces.x + s.pieces.o < 2 * MaxPieces
  {
  }

  type Registry = map<ChatId, Session>

  ghost predicate RegistryDiscipline(reg: Registry) {
    forall c | c in reg :: Discipline(reg[c])
  }

  /** The registry changed at most at `chat`. */
  predicate OnlyAt(reg: Registry, reg': Registry, chat: ChatId) {
    reg' - {chat} == reg - {chat}
  }
}
