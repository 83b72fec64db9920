/** The two-player chess game of server/games/chess.js. All rules live in the chess.js
    library; this model keeps that library as a parameter (ChessLib) and states what
    the wrapper adds: seat assignment, the turn gate in front of the library, the
    default promotion, and how the library's outcome becomes a reply. */
module ChessServer {
  import opened Protocol

  /** A position in Forsyth-Edwards Notation, as chess.fen() returns it. */
  type Fen = string

  datatype Side = W | B

  /** What chess.move returns: a move record and the position after it, a falsy value,
      or an exception for an illegal or malformed move. */
  datatype LibMove = Played(record: string, after: Fen) | NoMove | Raised

  /** The chess.js operations the wrapper uses. The side to move, move legality, check
      and checkmate are functions of the position; the draw and game-over tests also
      see the earlier positions of the game, since threefold repetition counts them. */
  datatype ChessLib = ChessLib(
    turn: Fen -> Side,
    move: (Fen, Field, Field, string) -> LibMove,
    inCheck: Fen -> bool,
    isCheckmate: Fen -> bool,
    isDraw: (seq<Fen>, Fen) -> bool,
    isGameOver: (seq<Fen>, Fen) -> bool)

  /** The library's game, as its earlier positions and its current position, and
      this.players. */
  datatype State = State(past: seq<Fen>, fen: Fen, white: Option<PlayerId>, black: Option<PlayerId>)

  datatype Report =
    | StateReport(fen: Fen, turn: Side, white: Option<PlayerId>, black: Option<PlayerId>)
    | MoveReport(fen: Fen, turn: Side, lastMove: string, check: bool, checkmate: bool, draw: bool, gameOver: bool)

  /** The position a fresh chess.js instance starts from. */
  const StartFen: Fen := "rnbqkbnr/pppppppp/8/8/8/8/PPPPPPPP/RNBQKBNR w KQkq - 0 1"

  /** The constructor: a new game at the standard start and both seats empty. */
  function Initial(): State {
    State([], StartFen, None, None)
  }

  /** JavaScript truthiness of a seat: null and the empty string are falsy. */
  predicate Taken(seat: Option<PlayerId>) {
    seat.Some? && seat.value != ""
  }

  /** assignPlayer: the first free seat, white before black; otherwise a spectator. */
  function AssignPlayer(s: State, id: PlayerId): (r: (State, Option<Side>))
    ensures r.0.fen == s.fen && r.0.past == s.past
    ensures r.1 == Some(W) <==> !Taken(s.white)
    ensures r.1 == Some(B) <==> Taken(s.white) && !Taken(s.black)
    ensures r.1 == Some(W) ==> r.0 == s.(white := Some(id))
    ensures r.1 == Some(B) ==> r.0 == s.(black := Some(id))
    ensures r.1.None? ==> r.0 == s
  {
    if !Taken(s.white) then (s.(white := Some(id)), Some(W))
    else if !Taken(s.black) then (s.(black := Some(id)), Some(B))
    else (s, None)
  }

  /** A seat that is taken is never given away again. */
  lemma AssignKeepsTakenSeats(s: State, id: PlayerId)
    ensures Taken(s.white) ==> AssignPlayer(s, id).0.white == s.white
    ensures Taken(s.black) ==> AssignPlayer(s, id).0.black == s.black
  {
  }

  /** Starting from two empty seats, the first two players get white and black and
      every later one is a spectator. */
  lemma ThreeArrivals(past: seq<Fen>, fen: Fen, a: PlayerId, b: PlayerId, c: PlayerId)
    requires a != "" && b != ""
    ensures var (s1, r1) := AssignPlayer(State(past, fen, None, None), a);
      var (s2, r2) := AssignPlayer(s1, b);
      var (s3, r3) := AssignPlayer(s2, c);
      r1 == Some(W) && r2 == Some(B) && r3.None? && s3 == State(past, fen, Some(a), Some(b))
  {
  }

  /** The side a player is seated on, white taking precedence. */
  function SeatedSide(s: State, id: PlayerId): (side: Option<Side>)
    ensures side == Some(W) <==> s.white == Some(id)
    ensures side == Some(B) <==> s.white != Some(id) && s.black == Some(id)
  {
    if s.white == Some(id) then Some(W) else if s.black == Some(id) then Some(B) else None
  }

  /** promotion || 'q'. */
  function Promotion(p: Option<string>): (q: string)
    ensures q != ""
    ensures p.Some? && p.value != "" ==> q == p.value
  {
    if p.Some? && p.value != "" then p.value else "q"
  }

  /** processAction(playerId, action, data). */
  function ProcessAction(s: State, id: PlayerId, action: Action, lib: ChessLib): (r: (State, Reply<Report>))
    ensures r.0.white == s.white && r.0.black == s.black
    ensures action.GetState? ==> r == (s, Returned(Some(StateReport(s.fen, lib.turn(s.fen), s.white, s.black))))
    ensures !action.GetState? && !action.Move? ==> r == (s, Returned(None))
    ensures r.0.fen != s.fen || r.0.past != s.past ==> action.Move? && SeatedSide(s, id) == Some(lib.turn(s.fen))
    ensures r.0.past == s.past || r.0.past == s.past + [s.fen]
    ensures r.1.Thrown? ==> r.0 == s
  {
    match action
    case GetState => (s, Returned(Some(StateReport(s.fen, lib.turn(s.fen), s.white, s.black))))
    case Move(from, to, promotion) =>
      if SeatedSide(s, id) != Some(lib.turn(s.fen)) then (s, Thrown(NotYourTurn))
      else
        (match lib.move(s.fen, from, to, Promotion(promotion))
         case Raised => (s, Thrown(InvalidMove))
         case NoMove => (s, Returned(None))
         case Played(record, after) =>
           var past := s.past + [s.fen];
           (s.(past := past, fen := after),
            Returned(Some(MoveReport(after, lib.turn(after), record, lib.inCheck(after),
                                     lib.isCheckmate(after), lib.isDraw(past, after), lib.isGameOver(past, after))))))
    case _ => (s, Returned(None))
  }

  /** The turn gate comes before the library: a player not seated on the side to move
      gets 'Not your turn' whatever the library would have said about the move. */
  lemma TurnGateBeforeLibrary(s: State, id: PlayerId, from: Field, to: Field, p: Option<string>, lib: ChessLib, other: ChessLib)
    requires SeatedSide(s, id) != Some(lib.turn(s.fen))
    requires other.turn == lib.turn
    ensures ProcessAction(s, id, Move(from, to, p), lib) == (s, Thrown(NotYourTurn))
    ensures ProcessAction(s, id, Move(from, to, p), other) == ProcessAction(s, id, Move(from, to, p), lib)
  {
  }

  /** A spectator can never move, on either side's turn. */
  lemma SpectatorsCannotMove(s: State, id: PlayerId, from: Field, to: Field, p: Option<string>, lib: ChessLib)
    requires s.white != Some(id) && s.black != Some(id)
    ensures ProcessAction(s, id, Move(from, to, p), lib) == (s, Thrown(NotYourTurn))
  {
  }

  /** A move without a promotion piece is exactly the same request as one promoting
      to a queen. */
  lemma DefaultPromotionIsQueen(s: State, id: PlayerId, from: Field, to: Field, lib: ChessLib)
    ensures ProcessAction(s, id, Move(from, to, None), lib) == ProcessAction(s, id, Move(from, to, Some("q")), lib)
    ensures ProcessAction(s, id, Move(from, to, Some("")), lib) == ProcessAction(s, id, Move(from, to, Some("q")), lib)
  {
  }

  /** When the seated side to move plays a move the library accepts, the game adopts
      the library's new position, the old one joins the game's history, and the reply
      reports the side to move, the move record and the check, checkmate, draw and
      game-over flags of the new position in that history; when the library throws,
      the position is kept and the error is 'Invalid move'. */
  lemma MoveOutcomes(s: State, id: PlayerId, from: Field, to: Field, p: Option<string>, lib: ChessLib)
    requires SeatedSide(s, id) == Some(lib.turn(s.fen))
    ensures var r := ProcessAction(s, id, Move(from, to, p), lib);
      match lib.move(s.fen, from, to, Promotion(p))
      case Played(record, after) =>
        r == (s.(past := s.past + [s.fen], fen := after),
              Returned(Some(MoveReport(after, lib.turn(after), record, lib.inCheck(after), lib.isCheckmate(after),
                                       lib.isDraw(s.past + [s.fen], after), lib.isGameOver(s.past + [s.fen], after)))))
      case Raised => r == (s, Thrown(InvalidMove))
      case NoMove => r == (s, Returned(None))
  {
  }
}
