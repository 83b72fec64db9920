/** The two-player chess client (public/js/games/standardChess.js): square naming,
    square colouring, the drop guard, and attemptMove, which validates a move on a
    local copy of the library before sending it and then undoes it. */
module StandardChessClient {
  import opened Protocol
  import opened Text
  import ChessServer

  const Files: string := "abcdefgh"

  /** toSquare: files[col] + (8 - row), for the grid the renderer walks. */
  function ToSquare(row: int, col: int): (name: string)
    requires 0 <= row < 8 && 0 <= col < 8
    ensures |name| == 2 && 'a' <= name[0] <= 'h' && '1' <= name[1] <= '8'
  {
    [Files[col]] + NatToString(8 - row)
  }

  /** The square named by algebraic notation, if it is one. */
  function FromSquare(name: string): (rc: Option<(int, int)>)
    ensures rc.Some? ==> 0 <= rc.value.0 < 8 && 0 <= rc.value.1 < 8
  {
    if |name| == 2 && 'a' <= name[0] <= 'h' && '1' <= name[1] <= '8'
    then Some((8 - (name[1] as int - '0' as int), name[0] as int - 'a' as int))
    else None
  }

  /** Naming a grid square and reading the name back gives the square. */
  lemma ToSquareRoundTrip(row: int, col: int)
    requires 0 <= row < 8 && 0 <= col < 8
    ensures FromSquare(ToSquare(row, col)) == Some((row, col))
  {
  }

  /** Reading a square name and naming the square gives the name back. */
  lemma FromSquareRoundTrip(name: string)
    requires FromSquare(name).Some?
    ensures ToSquare(FromSquare(name).value.0, FromSquare(name).value.1) == name
  {
    var (row, col) := FromSquare(name).value;
    assert NatToString(8 - row) == [name[1]];
  }

  /** Different squares get different names, so the drop guard's string comparison
      is a square comparison. */
  lemma ToSquareInjective(r1: int, c1: int, r2: int, c2: int)
    requires 0 <= r1 < 8 && 0 <= c1 < 8 && 0 <= r2 < 8 && 0 <= c2 < 8
    requires ToSquare(r1, c1) == ToSquare(r2, c2)
    ensures r1 == r2 && c1 == c2
  {
    ToSquareRoundTrip(r1, c1);
    ToSquareRoundTrip(r2, c2);
  }

  /** The class a square is drawn with. The colouring is the usual one: a square is
      light exactly when its file number (a = 1) plus its rank is odd. */
  function IsLight(row: int, col: int): (light: bool)
    requires 0 <= row < 8 && 0 <= col < 8
    ensures light <==> ((col + 1) + (8 - row)) % 2 == 1
  {
    (row + col) % 2 == 0
  }

  /** Neighbouring squares along a rank or a file have opposite colours, a1 is dark,
      and h1 and a8 are light. */
  lemma ColouringIsStandard(row: int, col: int)
    requires 0 <= row < 8 && 0 <= col < 8
    ensures 0 < col ==> IsLight(row, col) != IsLight(row, col - 1)
    ensures 0 < row ==> IsLight(row, col) != IsLight(row - 1, col)
    ensures ToSquare(7, 0) == "a1" && !IsLight(7, 0)
    ensures ToSquare(7, 7) == "h1" && IsLight(7, 7)
    ensures ToSquare(0, 0) == "a8" && IsLight(0, 0)
  {
  }

  /** attemptMove: the move is tried on the local library with a queen promotion; if
      the library accepts it, it is undone and the same move is sent to the server.
      The local position is the same afterwards in every case, so only the emitted
      action is a result. */
  function AttemptMove(fen: ChessServer.Fen, from: string, to: string, lib: ChessServer.ChessLib): (emitted: Option<Action>)
    ensures emitted.Some? <==> lib.move(fen, Named(from), Named(to), "q").Played?
    ensures emitted.Some? ==> emitted.value == Move(Named(from), Named(to), Some("q"))
  {
    if lib.move(fen, Named(from), Named(to), "q").Played? then Some(Move(Named(from), Named(to), Some("q")))
    else None
  }

  /** The drop handler: both square names present and different. */
  function Drop(fen: ChessServer.Fen, source: string, target: string, lib: ChessServer.ChessLib): (emitted: Option<Action>)
    ensures emitted.Some? ==> source != "" && target != "" && source != target
    ensures source != "" && target != "" && source != target ==> emitted == AttemptMove(fen, source, target, lib)
  {
    if source != "" && target != "" && source != target then AttemptMove(fen, source, target, lib) else None
  }

  /** updateState: a truthy fen in the message replaces the local position. */
  function UpdateState(local: ChessServer.Fen, incoming: Option<string>): (next: ChessServer.Fen)
    ensures incoming.Some? && incoming.value != "" ==> next == incoming.value
    ensures incoming.None? || incoming.value == "" ==> next == local
  {
    if incoming.Some? && incoming.value != "" then incoming.value else local
  }

  /** A client in sync with the server, seated on the side to move, only ever sends
      moves the server plays: its local check is the server's own check. */
  lemma EmittedMovesAreAccepted(s: ChessServer.State, id: PlayerId, source: string, target: string, lib: ChessServer.ChessLib)
    requires ChessServer.SeatedSide(s, id) == Some(lib.turn(s.fen))
    requires Drop(s.fen, source, target, lib).Some?
    ensures var r := ChessServer.ProcessAction(s, id, Drop(s.fen, source, target, lib).value, lib);
      r.1.Returned? && r.1.value.Some? && r.0.fen == lib.move(s.fen, Named(source), Named(target), "q").after
  {
  }

  /** A drop back onto the square it started from never reaches the library. */
  lemma DropOnSameSquareIgnored(fen: ChessServer.Fen, square: string, lib: ChessServer.ChessLib)
    ensures Drop(fen, square, square, lib).None?
  {
  }
}
