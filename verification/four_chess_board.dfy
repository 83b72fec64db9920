/** The 14x14 four-player chess board of server/games/fourPlayerChess.js: three
    3x3 cut-outs in each corner and four 16-piece armies, one per side. */
module FourChessBoard {
  import opened Protocol

  /** Listed in the clockwise turn order white, red, black, blue. */
  datatype Color = White | Red | Black | Blue

  datatype Kind = Pawn | Knight | Bishop | Rook | Queen | King

  datatype Piece = Piece(kind: Kind, color: Color, moved: bool)

  /** 'X' (a corner cut-out), null (an empty square) or a piece object. */
  datatype Cell = Cut | Empty | Occupied(piece: Piece)

  /** The 14 rows of 14 cells. A write to a column outside 0..13 of an existing row
      does not fail in JavaScript: it stores an extra property on the row array,
      which later reads of that column see. Those cells live in `stray`. */
  datatype Board = Board(grid: seq<seq<Cell>>, stray: map<(int, int), Cell>)

  predicate WellFormed(b: Board) {
    |b.grid| == 14 && forall r :: 0 <= r < 14 ==> |b.grid[r]| == 14
  }

  /** board[r][c] for a row that exists; an unset column reads as undefined, which
      behaves like null. */
  function Get(b: Board, r: int, c: int): Cell
    requires WellFormed(b) && 0 <= r < 14
  {
    if 0 <= c < 14 then b.grid[r][c]
    else if (r, c) in b.stray then b.stray[(r, c)]
    else Empty
  }

  /** board[r][c] = x for a row that exists. */
  function Put(b: Board, r: int, c: int, x: Cell): (b': Board)
    requires WellFormed(b) && 0 <= r < 14
    ensures WellFormed(b')
    ensures Get(b', r, c) == x
    ensures forall r', c' :: 0 <= r' < 14 && (r', c') != (r, c) ==> Get(b', r', c') == Get(b, r', c')
  {
    if 0 <= c < 14 then Board(b.grid[r := b.grid[r][c := x]], b.stray)
    else Board(b.grid, b.stray[(r, c) := x])
  }

  /** Rows (or columns) 0-2 and 11-13: the ranges of the corner-marking loops. */
  predicate InBand(j: int) {
    0 <= j < 3 || 11 <= j < 14
  }

  predicate InCutout(r: int, c: int) {
    InBand(r) && InBand(c)
  }

  /** The grid after the four corner-marking loops and before any army is placed. */
  function MarkedBoard(): (b: Board)
    ensures WellFormed(b)
  {
    Board(seq(14, r => seq(14, c => if InCutout(r, c) then Cut else Empty)), map[])
  }

  /** The back rank, left to right, used by both setup functions. */
  const BackRank: seq<Kind> := [Rook, Knight, Bishop, King, Queen, Bishop, Knight, Rook]

  /** Steps i..7 of setupArmy's forEach: back-rank piece i on backRow, a pawn on pawnRow,
      both in column startCol + i. */
  function SetupArmyFrom(b: Board, color: Color, backRow: int, pawnRow: int, startCol: int, i: nat): (b': Board)
    requires WellFormed(b) && 0 <= backRow < 14 && 0 <= pawnRow < 14 && backRow != pawnRow && i <= 8
    requires 0 <= startCol && startCol + 8 <= 14
    ensures WellFormed(b') && b'.stray == b.stray
    ensures forall r, c | 0 <= r < 14 ::
      Get(b', r, c) == (
        if startCol + i <= c < startCol + 8 && r == backRow then Occupied(Piece(BackRank[c - startCol], color, false))
        else if startCol + i <= c < startCol + 8 && r == pawnRow then Occupied(Piece(Pawn, color, false))
        else Get(b, r, c))
    decreases 8 - i
  {
    if i == 8 then b
    else
      var b1 := Put(b, backRow, startCol + i, Occupied(Piece(BackRank[i], color, false)));
      var b2 := Put(b1, pawnRow, startCol + i, Occupied(Piece(Pawn, color, false)));
      SetupArmyFrom(b2, color, backRow, pawnRow, startCol, i + 1)
  }

  function SetupArmy(b: Board, color: Color, backRow: int, pawnRow: int, startCol: int): Board
    requires WellFormed(b) && 0 <= backRow < 14 && 0 <= pawnRow < 14 && backRow != pawnRow
    requires 0 <= startCol && startCol + 8 <= 14
  {
    SetupArmyFrom(b, color, backRow, pawnRow, startCol, 0)
  }

  /** Steps i..7 of setupArmyRotated: the same army laid along a column. */
  function SetupArmyRotatedFrom(b: Board, color: Color, backCol: int, pawnCol: int, startRow: int, i: nat): (b': Board)
    requires WellFormed(b) && 0 <= startRow && startRow + 8 <= 14 && backCol != pawnCol && i <= 8
    requires 0 <= backCol < 14 && 0 <= pawnCol < 14
    ensures WellFormed(b') && b'.stray == b.stray
    ensures forall r, c | 0 <= r < 14 ::
      Get(b', r, c) == (
        if startRow + i <= r < startRow + 8 && c == backCol then Occupied(Piece(BackRank[r - startRow], color, false))
        else if startRow + i <= r < startRow + 8 && c == pawnCol then Occupied(Piece(Pawn, color, false))
        else Get(b, r, c))
    decreases 8 - i
  {
    if i == 8 then b
    else
      var b1 := Put(b, startRow + i, backCol, Occupied(Piece(BackRank[i], color, false)));
      var b2 := Put(b1, startRow + i, pawnCol, Occupied(Piece(Pawn, color, false)));
      SetupArmyRotatedFrom(b2, color, backCol, pawnCol, startRow, i + 1)
  }

  function SetupArmyRotated(b: Board, color: Color, backCol: int, pawnCol: int, startRow: int): Board
    requires WellFormed(b) && 0 <= startRow && startRow + 8 <= 14 && backCol != pawnCol
    requires 0 <= backCol < 14 && 0 <= pawnCol < 14
  {
    SetupArmyRotatedFrom(b, color, backCol, pawnCol, startRow, 0)
  }

  /** initializeBoard: corners first, then white (bottom), black (top), red (left), blue (right). */
  function InitialBoard(): (b: Board)
    ensures WellFormed(b)
  {
    var b1 := SetupArmy(MarkedBoard(), White, 13, 12, 3);
    var b2 := SetupArmy(b1, Black, 0, 1, 3);
    var b3 := SetupArmyRotated(b2, Red, 0, 1, 3);
    SetupArmyRotated(b3, Blue, 13, 12, 3)
  }

  // ---------------------------------------------------------------------------
  // An independent description of the starting position: each army is sixteen
  // numbered pieces (0..7 the back rank left to right, 8..15 the pawns), and each
  // numbered piece has one home square.

  function HomeKind(i: nat): Kind
    requires i < 16
  {
    if i < 8 then BackRank[i] else Pawn
  }

  function HomeSquare(color: Color, i: nat): (int, int)
    requires i < 16
  {
    var back := i < 8;
    var j := if back then i else i - 8;
    match color
    case White => (if back then 13 else 12, 3 + j)
    case Black => (if back then 0 else 1, 3 + j)
    case Red => (3 + j, if back then 0 else 1)
    case Blue => (3 + j, if back then 13 else 12)
  }

  /** Which numbered piece, if any, starts on (r, c). */
  function HomeOf(r: int, c: int): Option<(Color, nat)> {
    if 3 <= c <= 10 && (r == 13 || r == 12) then Some((White, if r == 13 then c - 3 else c + 5))
    else if 3 <= c <= 10 && (r == 0 || r == 1) then Some((Black, if r == 0 then c - 3 else c + 5))
    else if 3 <= r <= 10 && (c == 0 || c == 1) then Some((Red, if c == 0 then r - 3 else r + 5))
    else if 3 <= r <= 10 && (c == 13 || c == 12) then Some((Blue, if c == 13 then r - 3 else r + 5))
    else None
  }

  /** What the starting position should hold on each square of the grid. */
  function ExpectedCell(r: int, c: int): Cell {
    if InCutout(r, c) then Cut
    else match HomeOf(r, c)
      case Some((color, i)) => if i < 16 then Occupied(Piece(HomeKind(i), color, false)) else Empty
      case None => Empty
  }

  /** HomeSquare and HomeOf are inverse: the 64 home squares are pairwise distinct,
      so no two armies overlap, and every home square is on the playable grid. */
  lemma HomeSquareRoundTrip(color: Color, i: nat)
    requires i < 16
    ensures HomeOf(HomeSquare(color, i).0, HomeSquare(color, i).1) == Some((color, i))
    ensures 0 <= HomeSquare(color, i).0 < 14 && 0 <= HomeSquare(color, i).1 < 14
    ensures !InCutout(HomeSquare(color, i).0, HomeSquare(color, i).1)
  {
  }

  lemma HomeOfRoundTrip(r: int, c: int)
    requires HomeOf(r, c).Some?
    ensures HomeOf(r, c).value.1 < 16
    ensures HomeSquare(HomeOf(r, c).value.0, HomeOf(r, c).value.1) == (r, c)
  {
  }

  /** Each army: eight pawns, two rooks, two knights, two bishops, one queen, one king. */
  lemma ArmyComposition()
    ensures multiset(seq(16, i requires 0 <= i < 16 => HomeKind(i)))
         == multiset{King, Queen, Rook, Rook, Bishop, Bishop, Knight, Knight}
            + multiset{Pawn, Pawn, Pawn, Pawn, Pawn, Pawn, Pawn, Pawn}
  {
    var P := Pawn;
    var pawns := [P, P, P, P];
    HomeKindsInOrder(pawns);
    BackRankPieces();
    assert multiset(pawns) + multiset(pawns) == multiset{P, P, P, P, P, P, P, P};
    assert multiset(BackRank + pawns + pawns) == multiset(BackRank) + (multiset(pawns) + multiset(pawns));
  }

  lemma HomeKindsInOrder(pawns: seq<Kind>)
    requires pawns == [Pawn, Pawn, Pawn, Pawn]
    ensures seq(16, i requires 0 <= i < 16 => HomeKind(i)) == BackRank + pawns + pawns
  {
    var ks := seq(16, i requires 0 <= i < 16 => HomeKind(i));
    forall i | 0 <= i < 16
      ensures ks[i] == (BackRank + pawns + pawns)[i]
    {
    }
  }

  lemma BackRankPieces()
    ensures multiset(BackRank) == multiset{King, Queen, Rook, Rook, Bishop, Bishop, Knight, Knight}
  {
  }

  /** The starting board square by square, read off the five construction steps
      (later steps take precedence where they write). */
  function Layered(r: int, c: int): Cell {
    if 3 <= r < 11 && c == 13 then Occupied(Piece(BackRank[r - 3], Blue, false))
    else if 3 <= r < 11 && c == 12 then Occupied(Piece(Pawn, Blue, false))
    else if 3 <= r < 11 && c == 0 then Occupied(Piece(BackRank[r - 3], Red, false))
    else if 3 <= r < 11 && c == 1 then Occupied(Piece(Pawn, Red, false))
    else if 3 <= c < 11 && r == 0 then Occupied(Piece(BackRank[c - 3], Black, false))
    else if 3 <= c < 11 && r == 1 then Occupied(Piece(Pawn, Black, false))
    else if 3 <= c < 11 && r == 13 then Occupied(Piece(BackRank[c - 3], White, false))
    else if 3 <= c < 11 && r == 12 then Occupied(Piece(Pawn, White, false))
    else if InCutout(r, c) then Cut
    else Empty
  }

  lemma InitialCellLayered(r: int, c: int)
    requires 0 <= r < 14 && 0 <= c < 14
    ensures Get(InitialBoard(), r, c) == Layered(r, c)
  {
    var m := MarkedBoard();
    var b1 := SetupArmy(m, White, 13, 12, 3);
    var b2 := SetupArmy(b1, Black, 0, 1, 3);
    var b3 := SetupArmyRotated(b2, Red, 0, 1, 3);
    var b4 := SetupArmyRotated(b3, Blue, 13, 12, 3);
    assert Get(m, r, c) == if InCutout(r, c) then Cut else Empty;
    assert Get(b1, r, c) == (
      if 3 <= c < 11 && r == 13 then Occupied(Piece(BackRank[c - 3], White, false))
      else if 3 <= c < 11 && r == 12 then Occupied(Piece(Pawn, White, false))
      else Get(m, r, c));
    assert Get(b2, r, c) == (
      if 3 <= c < 11 && r == 0 then Occupied(Piece(BackRank[c - 3], Black, false))
      else if 3 <= c < 11 && r == 1 then Occupied(Piece(Pawn, Black, false))
      else Get(b1, r, c));
    assert Get(b3, r, c) == (
      if 3 <= r < 11 && c == 0 then Occupied(Piece(BackRank[r - 3], Red, false))
      else if 3 <= r < 11 && c == 1 then Occupied(Piece(Pawn, Red, false))
      else Get(b2, r, c));
    assert Get(b4, r, c) == (
      if 3 <= r < 11 && c == 13 then Occupied(Piece(BackRank[r - 3], Blue, false))
      else if 3 <= r < 11 && c == 12 then Occupied(Piece(Pawn, Blue, false))
      else Get(b3, r, c));
    assert b4 == InitialBoard();
  }

  lemma LayeredIsExpected(r: int, c: int)
    requires 0 <= r < 14 && 0 <= c < 14
    ensures Layered(r, c) == ExpectedCell(r, c)
  {
    if InCutout(r, c) {
    } else if 3 <= c <= 10 && (r == 13 || r == 12) {
      assert HomeOf(r, c) == Some((White, if r == 13 then c - 3 else c + 5));
    } else if 3 <= c <= 10 && (r == 0 || r == 1) {
      assert HomeOf(r, c) == Some((Black, if r == 0 then c - 3 else c + 5));
    } else if 3 <= r <= 10 && (c == 0 || c == 1) {
      assert HomeOf(r, c) == Some((Red, if c == 0 then r - 3 else r + 5));
    } else if 3 <= r <= 10 && (c == 13 || c == 12) {
      assert HomeOf(r, c) == Some((Blue, if c == 13 then r - 3 else r + 5));
    } else {
      assert HomeOf(r, c) == None;
    }
  }

  lemma InitialCell(r: int, c: int)
    requires 0 <= r < 14 && 0 <= c < 14
    ensures Get(InitialBoard(), r, c) == ExpectedCell(r, c)
  {
    InitialCellLayered(r, c);
    LayeredIsExpected(r, c);
  }

  /** initializeBoard builds exactly the expected starting position: 'X' on the
      corner cells, every numbered piece of every army unmoved on its home square,
      and null everywhere else. */
  lemma InitialBoardCells()
    ensures forall r, c :: 0 <= r < 14 && 0 <= c < 14 ==> Get(InitialBoard(), r, c) == ExpectedCell(r, c)
  {
    forall r, c | 0 <= r < 14 && 0 <= c < 14
      ensures Get(InitialBoard(), r, c) == ExpectedCell(r, c)
    {
      InitialCell(r, c);
    }
  }

  /** Nothing is stored outside the 14 columns at the start. */
  lemma InitialStrayEmpty()
    ensures InitialBoard().stray == map[]
  {
    var m := MarkedBoard();
    var b1 := SetupArmy(m, White, 13, 12, 3);
    var b2 := SetupArmy(b1, Black, 0, 1, 3);
    var b3 := SetupArmyRotated(b2, Red, 0, 1, 3);
    assert b3.stray == b2.stray == b1.stray == m.stray == map[];
  }

  /** A board holding exactly the expected starting position on the grid. */
  ghost predicate IsStartingPosition(b: Board) {
    WellFormed(b) && forall r, c :: 0 <= r < 14 && 0 <= c < 14 ==> Get(b, r, c) == ExpectedCell(r, c)
  }

  lemma InitialIsStartingPosition()
    ensures IsStartingPosition(InitialBoard())
  {
    InitialBoardCells();
  }

  /** On a starting position every numbered piece stands unmoved on its home square,
      and the only pieces on the grid are those 64. */
  lemma StartingPlacement(b: Board)
    requires IsStartingPosition(b)
    ensures forall color: Color, i: nat :: i < 16 ==>
      Get(b, HomeSquare(color, i).0, HomeSquare(color, i).1) == Occupied(Piece(HomeKind(i), color, false))
    ensures forall r, c :: 0 <= r < 14 && 0 <= c < 14 && Get(b, r, c).Occupied? ==>
      HomeOf(r, c).Some? && HomeSquare(HomeOf(r, c).value.0, HomeOf(r, c).value.1) == (r, c)
  {
    forall color: Color, i: nat | i < 16
      ensures Get(b, HomeSquare(color, i).0, HomeSquare(color, i).1) == Occupied(Piece(HomeKind(i), color, false))
    {
      HomeSquareRoundTrip(color, i);
    }
    forall r, c | 0 <= r < 14 && 0 <= c < 14 && Get(b, r, c).Occupied?
      ensures HomeOf(r, c).Some? && HomeSquare(HomeOf(r, c).value.0, HomeOf(r, c).value.1) == (r, c)
    {
      HomeOfRoundTrip(r, c);
    }
  }

  // ---------------------------------------------------------------------------
  // Counting the cut-out cells.

  function CutsInRow(b: Board, r: int, c: nat): nat
    requires WellFormed(b) && 0 <= r < 14 && c <= 14
    decreases 14 - c
  {
    if c == 14 then 0 else (if Get(b, r, c) == Cut then 1 else 0) + CutsInRow(b, r, c + 1)
  }

  function CutsFrom(b: Board, r: nat): nat
    requires WellFormed(b) && r <= 14
    decreases 14 - r
  {
    if r == 14 then 0 else CutsInRow(b, r, 0) + CutsFrom(b, r + 1)
  }

  /** How many of j, j+1, ..., 13 lie in the band 0-2 or 11-13. */
  function BandFrom(j: nat): nat {
    (if j < 3 then 3 - j else 0) + (if j <= 11 then 3 else if j <= 14 then 14 - j else 0)
  }

  lemma {:induction false} StartingRowCuts(b: Board, r: int, c: nat)
    requires IsStartingPosition(b) && 0 <= r < 14 && c <= 14
    ensures CutsInRow(b, r, c) == if InBand(r) then BandFrom(c) else 0
    decreases 14 - c
  {
    if c < 14 {
      StartingRowCuts(b, r, c + 1);
      assert Get(b, r, c) == ExpectedCell(r, c);
    }
  }

  lemma {:induction false} StartingCutsFrom(b: Board, r: nat)
    requires IsStartingPosition(b) && r <= 14
    ensures CutsFrom(b, r) == 6 * BandFrom(r)
    decreases 14 - r
  {
    if r < 14 {
      StartingCutsFrom(b, r + 1);
      StartingRowCuts(b, r, 0);
    }
  }

  /** A starting position has exactly 36 'X' cells on the grid. */
  lemma StartingCutCount(b: Board)
    requires IsStartingPosition(b)
    ensures CutsFrom(b, 0) == 36
  {
    StartingCutsFrom(b, 0);
  }
}
