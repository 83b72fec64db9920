/** The board helpers of the four-player chess client (public/js/games/fourPlayerChess.js):
    which squares are cut-outs, the drop handler that turns a drag into a 'move'
    action, and updateState, which caches the board the server sends. */
module FourChessClient {
  import opened Protocol
  import opened FourChessBoard
  import FourChess

  /** isInvalidSquare: the four 3x3 corners, written with strict comparisons. */
  function IsInvalidSquare(r: int, c: int): (invalid: bool)
    ensures 0 <= r < 14 && 0 <= c < 14 ==> (invalid <==> InCutout(r, c))
  {
    (r < 3 && c < 3) || (r < 3 && c > 10) || (r > 10 && c < 3) || (r > 10 && c > 10)
  }

  /** The client draws a cut-out exactly where the server's starting board holds 'X'. */
  lemma ClientCutoutsMatchServer(b: Board, r: int, c: int)
    requires IsStartingPosition(b) && 0 <= r < 14 && 0 <= c < 14
    ensures IsInvalidSquare(r, c) <==> Get(b, r, c) == Cut
  {
  }

  /** The cut-outs are symmetric under reflecting either axis of the 14x14 grid. */
  lemma InvalidSquareSymmetric(r: int, c: int)
    requires 0 <= r < 14 && 0 <= c < 14
    ensures IsInvalidSquare(r, c) == IsInvalidSquare(13 - r, c) == IsInvalidSquare(r, 13 - c)
  {
  }

  /** The drop handler: a drag onto a different square emits a 'move' action with the
      two coordinates; a drop back onto the starting square emits nothing. */
  function Drop(from: (int, int), to: (int, int)): (emitted: Option<Action>)
    ensures emitted.Some? <==> from != to
    ensures emitted.Some? ==> emitted.value == Move(Coord(from.0, from.1), Coord(to.0, to.1), None)
  {
    if from.0 != to.0 || from.1 != to.1 then Some(Move(Coord(from.0, from.1), Coord(to.0, to.1), None))
    else None
  }

  /** In the unseated game every drag of a piece to another on-board square is
      accepted by the server, and the piece lands where it was dropped. */
  lemma DropIsAccepted(s: FourChess.State, id: PlayerId, from: (int, int), to: (int, int))
    requires FourChess.Valid(s) && FourChess.BoundSeats(s.seats) <= 1
    requires 0 <= from.0 < 14 && 0 <= to.0 < 14 && from != to
    requires Get(s.board, from.0, from.1).Occupied?
    ensures Drop(from, to).Some?
    ensures var r := FourChess.ProcessAction(s, id, Drop(from, to).value);
      && r.1.Returned?
      && Get(r.0.board, to.0, to.1) == Occupied(Get(s.board, from.0, from.1).piece.(moved := true))
      && Get(r.0.board, from.0, from.1) == Empty
  {
  }

  /** updateState: the cached board is replaced only when the message carries one. */
  function UpdateState(cached: Option<Board>, incoming: Option<Board>): (next: Option<Board>)
    ensures incoming.Some? ==> next == incoming
    ensures incoming.None? ==> next == cached
  {
    if incoming.Some? then incoming else cached
  }

  /** After any server reply that carries a snapshot, the client's board is the
      server's board. */
  lemma ClientFollowsServer(cached: Option<Board>, s: FourChess.State, id: PlayerId, action: Action)
    requires FourChess.Valid(s)
    requires FourChess.ProcessAction(s, id, action).1.Returned?
    requires FourChess.ProcessAction(s, id, action).1.value.Some?
    ensures UpdateState(cached, Some(FourChess.ProcessAction(s, id, action).1.value.value.board))
      == Some(FourChess.ProcessAction(s, id, action).0.board)
  {
  }
}
