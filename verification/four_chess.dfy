/** The four-player chess engine of server/games/fourPlayerChess.js: seats, the
    clockwise turn cursor, and processAction ('getState' and 'move'). The engine
    checks only that the source square holds a piece of the mover's colour; it has
    no move geometry, no elimination and no win detection. */
module FourChess {
  import opened Protocol
  import opened FourChessBoard

  /** this.turnOrder, clockwise. */
  const TurnOrder: seq<Color> := [White, Red, Black, Blue]

  /** this.players; its keys iterate in the order white, black, red, blue. The class
      has no method that fills a seat, so every seat stays null. */
  datatype Seats = Seats(white: Option<PlayerId>, black: Option<PlayerId>, red: Option<PlayerId>, blue: Option<PlayerId>)

  datatype State = State(
    board: Board,
    seats: Seats,
    turnIndex: nat,
    eliminated: seq<Color>,
    gameOver: bool,
    winner: Option<Color>)

  /** The object getState and an accepted move return. */
  datatype Snapshot = Snapshot(board: Board, turn: Color, eliminated: seq<Color>, gameOver: bool, winner: Option<Color>)

  predicate HasLiveColor(eliminated: seq<Color>) {
    White !in eliminated || Red !in eliminated || Black !in eliminated || Blue !in eliminated
  }

  /** What every reachable state satisfies: a 14-row board, a cursor into turnOrder,
      and a colour left for nextTurn to stop at. */
  predicate Valid(s: State) {
    WellFormed(s.board) && s.turnIndex < 4 && HasLiveColor(s.eliminated)
  }

  /** The constructor. */
  function Initial(): (s: State)
    ensures Valid(s)
  {
    State(InitialBoard(), Seats(None, None, None, None), 0, [], false, None)
  }

  function SnapshotOf(s: State): Snapshot
    requires s.turnIndex < 4
  {
    Snapshot(s.board, TurnOrder[s.turnIndex], s.eliminated, s.gameOver, s.winner)
  }

  /** getPlayerColor: the first seat, in key order, bound to the id. */
  function PlayerColor(seats: Seats, id: PlayerId): (r: Option<Color>)
    ensures r == Some(White) <==> seats.white == Some(id)
    ensures r == Some(Black) <==> seats.white != Some(id) && seats.black == Some(id)
    ensures r == Some(Red) <==> seats.white != Some(id) && seats.black != Some(id) && seats.red == Some(id)
    ensures r == Some(Blue) <==> seats.white != Some(id) && seats.black != Some(id) && seats.red != Some(id) && seats.blue == Some(id)
  {
    if seats.white == Some(id) then Some(White)
    else if seats.black == Some(id) then Some(Black)
    else if seats.red == Some(id) then Some(Red)
    else if seats.blue == Some(id) then Some(Blue)
    else None
  }

  /** How many seats hold a player. */
  function BoundSeats(seats: Seats): nat {
    (if seats.white.Some? then 1 else 0) + (if seats.black.Some? then 1 else 0)
    + (if seats.red.Some? then 1 else 0) + (if seats.blue.Some? then 1 else 0)
  }

  /** The colour d places clockwise after cursor i. */
  function Ahead(i: nat, d: nat): Color {
    TurnOrder[(i + d) % 4]
  }

  /** Clockwise distance from cursor i to cursor k, counting a full turn as 4. */
  function Steps(i: nat, k: nat): (n: nat)
    requires i < 4 && k < 4
    ensures 1 <= n <= 4 && Ahead(i, n) == TurnOrder[k]
  {
    if k > i then k - i else k + 4 - i
  }

  lemma StepsAhead(i: nat, d: nat)
    requires i < 4 && 1 <= d <= 4
    ensures Steps(i, (i + d) % 4) == d
  {
  }

  /** Some cursor whose colour is still in play. */
  function LiveCursor(eliminated: seq<Color>): (j: nat)
    requires HasLiveColor(eliminated)
    ensures j < 4 && TurnOrder[j] !in eliminated
  {
    if White !in eliminated then 0
    else if Red !in eliminated then 1
    else if Black !in eliminated then 2
    else 3
  }

  /** The while loop of nextTurn, after it has skipped d - 1 eliminated colours. */
  function ScanTurn(i: nat, eliminated: seq<Color>, d: nat): (k: nat)
    requires i < 4 && 1 <= d <= 4 && HasLiveColor(eliminated)
    requires forall d' :: 1 <= d' < d ==> Ahead(i, d') in eliminated
    ensures k < 4 && TurnOrder[k] !in eliminated
    ensures d <= Steps(i, k)
    ensures forall d' :: 1 <= d' < Steps(i, k) ==> Ahead(i, d') in eliminated
    decreases 4 - d
  {
    if Ahead(i, d) !in eliminated then
      StepsAhead(i, d);
      (i + d) % 4
    else
      var j := LiveCursor(eliminated);
      assert d < Steps(i, j);
      ScanTurn(i, eliminated, d + 1)
  }

  /** nextTurn: the first colour after cursor i, clockwise, that is not eliminated
      (the source loops forever when every colour is eliminated). With nobody
      eliminated that is simply the next cursor. */
  function NextTurn(i: nat, eliminated: seq<Color>): (k: nat)
    requires i < 4 && HasLiveColor(eliminated)
    ensures k < 4 && TurnOrder[k] !in eliminated
    ensures forall d :: 1 <= d < Steps(i, k) ==> Ahead(i, d) in eliminated
    ensures eliminated == [] ==> k == (i + 1) % 4
  {
    ScanTurn(i, eliminated, 1)
  }

  /** The colour the move is validated against in testing mode: piece ? piece.color
      : 'white', where the colour of the string 'X' is undefined (None). */
  function TestingColor(cell: Cell): Option<Color> {
    match cell
    case Empty => Some(White)
    case Cut => None
    case Occupied(p) => Some(p.color)
  }

  /** isValidMove: the source square must hold something whose colour is the given
      one. The destination is not an argument that matters: the source ignores it. */
  function IsValidMove(b: Board, r: int, c: int, color: Option<Color>): (ok: bool)
    requires WellFormed(b) && 0 <= r < 14
    ensures color.Some? ==> (ok <==> Get(b, r, c).Occupied? && Get(b, r, c).piece.color == color.value)
    ensures color.None? ==> (ok <==> Get(b, r, c) == Cut)
  {
    match Get(b, r, c)
    case Empty => false
    case Cut => color.None?
    case Occupied(p) => color == Some(p.color)
  }

  /** The cell as it ends up after piece.moved = true (a string keeps no flag). */
  function MarkMoved(cell: Cell): Cell {
    if cell.Occupied? then Occupied(cell.piece.(moved := true)) else cell
  }

  /** executeMove: board[to] = piece; board[from] = null; piece.moved = true. */
  function ExecuteMove(b: Board, fr: int, fc: int, tr: int, tc: int): (b': Board)
    requires WellFormed(b) && 0 <= fr < 14 && 0 <= tr < 14
    ensures WellFormed(b')
    ensures Get(b', fr, fc) == Empty
    ensures (tr, tc) != (fr, fc) ==> Get(b', tr, tc) == MarkMoved(Get(b, fr, fc))
    ensures forall r, c :: 0 <= r < 14 && (r, c) != (fr, fc) && (r, c) != (tr, tc) ==> Get(b', r, c) == Get(b, r, c)
  {
    Put(Put(b, tr, tc, MarkMoved(Get(b, fr, fc))), fr, fc, Empty)
  }

  /** The 'move' branch of processAction. */
  function MoveAction(s: State, id: PlayerId, from: Field, to: Field): (r: (State, Reply<Snapshot>))
    requires Valid(s)
    ensures Valid(r.0)
    ensures r.0.seats == s.seats && r.0.eliminated == s.eliminated && r.0.gameOver == s.gameOver && r.0.winner == s.winner
  {
    var testing := BoundSeats(s.seats) <= 1;
    if !testing && PlayerColor(s.seats, id) != Some(TurnOrder[s.turnIndex]) then (s, Thrown(NotYourTurn))
    else if !from.Coord? || !(0 <= from.r < 14) then (s, Thrown(TypeError))
    else
      var cell := Get(s.board, from.r, from.c);
      var color := if testing then TestingColor(cell) else PlayerColor(s.seats, id);
      if !IsValidMove(s.board, from.r, from.c, color) then (s, Thrown(InvalidMove))
      else if !to.Coord? || !(0 <= to.r < 14) then (s, Thrown(TypeError))
      else
        var b := ExecuteMove(s.board, from.r, from.c, to.r, to.c);
        if cell == Cut then (s.(board := b), Thrown(TypeError))
        else
          var s' := s.(board := b, turnIndex := NextTurn(s.turnIndex, s.eliminated));
          (s', Returned(Some(SnapshotOf(s'))))
  }

  /** processAction(playerId, action, data). Nothing ever changes the seats, the
      eliminated list, gameOver or winner. */
  function ProcessAction(s: State, id: PlayerId, action: Action): (r: (State, Reply<Snapshot>))
    requires Valid(s)
    ensures Valid(r.0)
    ensures r.0.seats == s.seats && r.0.eliminated == s.eliminated && r.0.gameOver == s.gameOver && r.0.winner == s.winner
    ensures action.GetState? ==> r == (s, Returned(Some(SnapshotOf(s))))
    ensures !action.GetState? && !action.Move? ==> r == (s, Returned(None))
    ensures r.1 == Thrown(NotYourTurn) || r.1 == Thrown(InvalidMove) ==> r.0 == s
  {
    match action
    case GetState => (s, Returned(Some(SnapshotOf(s))))
    case Move(from, to, _) => MoveAction(s, id, from, to)
    case _ => (s, Returned(None))
  }

  /** With more than one seat bound, a move from anyone not seated on the colour to
      move is refused with 'Not your turn' and changes nothing. */
  lemma NotYourTurnRefused(s: State, id: PlayerId, from: Field, to: Field, promotion: Option<string>)
    requires Valid(s) && BoundSeats(s.seats) > 1
    requires PlayerColor(s.seats, id) != Some(TurnOrder[s.turnIndex])
    ensures ProcessAction(s, id, Move(from, to, promotion)) == (s, Thrown(NotYourTurn))
  {
  }

  /** A move is accepted exactly when the source square holds a piece of the colour
      being validated, and then the state is executeMove followed by one nextTurn. */
  lemma AcceptedMove(s: State, id: PlayerId, fr: int, fc: int, tr: int, tc: int, promotion: Option<string>)
    requires Valid(s) && 0 <= fr < 14 && 0 <= tr < 14
    requires BoundSeats(s.seats) > 1 ==> PlayerColor(s.seats, id) == Some(TurnOrder[s.turnIndex])
    requires Get(s.board, fr, fc).Occupied?
    requires BoundSeats(s.seats) > 1 ==> Get(s.board, fr, fc).piece.color == TurnOrder[s.turnIndex]
    ensures var r := ProcessAction(s, id, Move(Coord(fr, fc), Coord(tr, tc), promotion));
      && r.0 == s.(board := ExecuteMove(s.board, fr, fc, tr, tc), turnIndex := NextTurn(s.turnIndex, s.eliminated))
      && r.1 == Returned(Some(SnapshotOf(r.0)))
  {
  }

  /** A source square that is empty, or holds the wrong colour in a seated game,
      gets 'Invalid move' with the board and the turn unchanged. */
  lemma InvalidMoveRefused(s: State, id: PlayerId, fr: int, fc: int, to: Field, promotion: Option<string>)
    requires Valid(s) && 0 <= fr < 14
    requires BoundSeats(s.seats) > 1 ==> PlayerColor(s.seats, id) == Some(TurnOrder[s.turnIndex])
    requires Get(s.board, fr, fc) == Empty
      || (BoundSeats(s.seats) > 1 && Get(s.board, fr, fc).Occupied? && Get(s.board, fr, fc).piece.color != TurnOrder[s.turnIndex])
    ensures ProcessAction(s, id, Move(Coord(fr, fc), to, promotion)) == (s, Thrown(InvalidMove))
  {
  }

  /** Whether a move is accepted never depends on its destination square. */
  lemma DestinationIgnored(s: State, id: PlayerId, from: Field, t1: int, c1: int, t2: int, c2: int, promotion: Option<string>)
    requires Valid(s) && 0 <= t1 < 14 && 0 <= t2 < 14
    ensures ProcessAction(s, id, Move(from, Coord(t1, c1), promotion)).1.Returned?
        <==> ProcessAction(s, id, Move(from, Coord(t2, c2), promotion)).1.Returned?
  {
  }

  /** Moving the 'X' of a cut-out in testing mode writes the board (the destination
      becomes 'X', the source null) and then fails on piece.moved, so the turn does
      not advance. */
  lemma CutoutSourceQuirk(s: State, id: PlayerId, fr: int, fc: int, tr: int, tc: int, promotion: Option<string>)
    requires Valid(s) && BoundSeats(s.seats) <= 1 && 0 <= fr < 14 && 0 <= tr < 14
    requires Get(s.board, fr, fc) == Cut
    ensures var r := ProcessAction(s, id, Move(Coord(fr, fc), Coord(tr, tc), promotion));
      && r.1 == Thrown(TypeError)
      && r.0.turnIndex == s.turnIndex
      && Get(r.0.board, fr, fc) == Empty
      && ((tr, tc) != (fr, fc) ==> Get(r.0.board, tr, tc) == Cut)
  {
  }

  /** Moving a piece onto its own square deletes it: from == to leaves null there. */
  lemma SelfMoveDeletes(s: State, id: PlayerId, r: int, c: int, promotion: Option<string>)
    requires Valid(s) && 0 <= r < 14 && BoundSeats(s.seats) <= 1
    requires Get(s.board, r, c).Occupied?
    ensures var res := ProcessAction(s, id, Move(Coord(r, c), Coord(r, c), promotion));
      res.1.Returned? && Get(res.0.board, r, c) == Empty
  {
  }

  /** The constructor leaves every seat empty and no action binds one, so every game
      stays in the single-player testing mode in which any piece may be moved by anyone. */
  lemma AlwaysTesting(s: State, id: PlayerId, action: Action)
    requires Valid(s) && s.seats == Seats(None, None, None, None)
    ensures BoundSeats(ProcessAction(s, id, action).0.seats) <= 1
    ensures ProcessAction(s, id, action).0.seats == Seats(None, None, None, None)
  {
  }
}
