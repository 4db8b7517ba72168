/** Win detection: `checkIfWinner` scans fixed windows of four slots and
    reports whether one of them is entirely the player's. */
module WinCheck {
  import opened Board

  /** The four directions a line of four can run in, as column and row
      steps: down a column, along a row, and the two diagonals. */
  datatype Direction = Vertical | Horizontal | UpDiagonal | DownDiagonal

  function ColumnStep(d: Direction): int
  {
    match d
    case Vertical => 0
    case Horizontal => 1
    case UpDiagonal => 1
    case DownDiagonal => 1
  }

  function RowStep(d: Direction): int
  {
    match d
    case Vertical => 1
    case Horizontal => 0
    case UpDiagonal => -1
    case DownDiagonal => 1
  }

  /** Slot (c, r) lies on the 7x6 board and holds a disc of `p`. */
  predicate Owns(b: Board, p: Player, c: int, r: int)
    requires WellFormed(b)
  {
    0 <= c < Columns && 0 <= r < Rows && b[c][r] == Disc(p)
  }

  /** Four slots starting at (c, r) and stepping in direction `d`, all on
      the board and all holding `p`. */
  predicate Line(b: Board, p: Player, c: int, r: int, d: Direction)
    requires WellFormed(b)
  {
    var dc, dr := ColumnStep(d), RowStep(d);
    Owns(b, p, c, r) && Owns(b, p, c + dc, r + dr)
    && Owns(b, p, c + 2 * dc, r + 2 * dr) && Owns(b, p, c + 3 * dc, r + 3 * dr)
  }

  /** Some line of four of `p` runs in direction `d`. */
  predicate LineIn(b: Board, p: Player, d: Direction)
    requires WellFormed(b)
  {
    exists c, r :: 0 <= c < Columns && 0 <= r < Rows && Line(b, p, c, r, d)
  }

  /** Reference meaning of a win: four of `p`'s discs in a row, in any of
      the four directions, starting anywhere on the board. */
  predicate Wins(b: Board, p: Player)
    requires WellFormed(b)
  {
    LineIn(b, p, Vertical) || LineIn(b, p, Horizontal)
    || LineIn(b, p, UpDiagonal) || LineIn(b, p, DownDiagonal)
  }

  /** The four-slot test `checkIfWinner` applies to one window, read the
      JavaScript way (a row index past the column's end reads `undefined`).
      On a 7x6 board it matches exactly when the window is a line of four
      on the board. */
  function Window(b: Board, p: Player, c: int, row: int, d: Direction): (w: bool)
    requires WellFormed(b) && 0 <= c && c + 3 * ColumnStep(d) < Columns
    ensures w <==> Line(b, p, c, row, d)
  {
    var dc, dr := ColumnStep(d), RowStep(d);
    At(b[c], row) == Disc(p) && At(b[c + dc], row + dr) == Disc(p)
    && At(b[c + 2 * dc], row + 2 * dr) == Disc(p) && At(b[c + 3 * dc], row + 3 * dr) == Disc(p)
  }

  /** checkIfWinner: four nested scans, vertical, horizontal, diagonal going
      up and diagonal going down, each returning as soon as a window of
      four matches. */
  method CheckIfWinner(board: Board, player: Player) returns (won: bool)
    requires WellFormed(board)
    ensures won == Wins(board, player)
  {
    won := ScanVertical(board, player);
    if won {
      return;
    }
    won := ScanHorizontal(board, player);
    if won {
      return;
    }
    won := ScanUpDiagonal(board, player);
    if won {
      return;
    }
    won := ScanDownDiagonal(board, player);
  }

  /** Vertical check: column j, rows i..i+3 for i = 0, 1, 2. */
  method ScanVertical(board: Board, player: Player) returns (found: bool)
    requires WellFormed(board)
    ensures found == LineIn(board, player, Vertical)
  {
    for j := 0 to 7
      invariant forall c, r :: 0 <= c < j && 0 <= r < Rows ==> !Line(board, player, c, r, Vertical)
    {
      for i := 0 to 3
        invariant forall c, r :: 0 <= c < j && 0 <= r < Rows ==> !Line(board, player, c, r, Vertical)
        invariant forall r :: 0 <= r < i ==> !Line(board, player, j, r, Vertical)
      {
        if Window(board, player, j, i, Vertical) {
          assert Line(board, player, j, i, Vertical);
          return true;
        }
      }
    }
    return false;
  }

  /** Horizontal check: columns i..i+3, row j for j = 0..6; row 6 lies past
      the bottom and reads `undefined`. */
  method ScanHorizontal(board: Board, player: Player) returns (found: bool)
    requires WellFormed(board)
    ensures found == LineIn(board, player, Horizontal)
  {
    for i := 0 to 4
      invariant forall c, r :: 0 <= c < i && 0 <= r < Rows ==> !Line(board, player, c, r, Horizontal)
    {
      for j := 0 to 7
        invariant forall c, r :: 0 <= c < i && 0 <= r < Rows ==> !Line(board, player, c, r, Horizontal)
        invariant forall r :: 0 <= r < j && r < Rows ==> !Line(board, player, i, r, Horizontal)
      {
        if Window(board, player, i, j, Horizontal) {
          assert Line(board, player, i, j, Horizontal);
          return true;
        }
      }
    }
    return false;
  }

  /** Diagonal going up: (i, j), (i + 1, j - 1), ... for j = 5, 4, 3. */
  method ScanUpDiagonal(board: Board, player: Player) returns (found: bool)
    requires WellFormed(board)
    ensures found == LineIn(board, player, UpDiagonal)
  {
    for i := 0 to 4
      invariant forall c, r :: 0 <= c < i && 0 <= r < Rows ==> !Line(board, player, c, r, UpDiagonal)
    {
      var j := 5;
      while j > 2
        invariant 2 <= j <= 5
        invariant forall c, r :: 0 <= c < i && 0 <= r < Rows ==> !Line(board, player, c, r, UpDiagonal)
        invariant forall r :: j < r < Rows ==> !Line(board, player, i, r, UpDiagonal)
      {
        if Window(board, player, i, j, UpDiagonal) {
          assert Line(board, player, i, j, UpDiagonal);
          return true;
        }
        j := j - 1;
      }
    }
    return false;
  }

  /** Diagonal going down: (i, j), (i + 1, j + 1), ... for j = 0, 1, 2. */
  method ScanDownDiagonal(board: Board, player: Player) returns (found: bool)
    requires WellFormed(board)
    ensures found == LineIn(board, player, DownDiagonal)
  {
    for i := 0 to 4
      invariant forall c, r :: 0 <= c < i && 0 <= r < Rows ==> !Line(board, player, c, r, DownDiagonal)
    {
      for j := 0 to 3
        invariant forall c, r :: 0 <= c < i && 0 <= r < Rows ==> !Line(board, player, c, r, DownDiagonal)
        invariant forall r :: 0 <= r < j ==> !Line(board, player, i, r, DownDiagonal)
      {
        if Window(board, player, i, j, DownDiagonal) {
          assert Line(board, player, i, j, DownDiagonal);
          return true;
        }
      }
    }
    return false;
  }

  /** A dropped disc lands in an empty slot, so a line of four a player
      already has survives any drop. */
  lemma DropKeepsWins(b: Board, c: int, p: Player, q: Player)
    requires WellFormed(b) && Wins(b, q)
    ensures WellFormed(Drop(b, c, p)) && Wins(Drop(b, c, p), q)
  {
    if LineIn(b, q, Vertical) {
      DropKeepsLine(b, c, p, q, Vertical);
    } else if LineIn(b, q, Horizontal) {
      DropKeepsLine(b, c, p, q, Horizontal);
    } else if LineIn(b, q, UpDiagonal) {
      DropKeepsLine(b, c, p, q, UpDiagonal);
    } else {
      DropKeepsLine(b, c, p, q, DownDiagonal);
    }
  }

  lemma DropKeepsLine(b: Board, c: int, p: Player, q: Player, d: Direction)
    requires WellFormed(b) && LineIn(b, q, d)
    ensures WellFormed(Drop(b, c, p)) && LineIn(Drop(b, c, p), q, d)
  {
    var nb := Drop(b, c, p);
    var x, y :| 0 <= x < Columns && 0 <= y < Rows && Line(b, q, x, y, d);
    forall u, v | Owns(b, q, u, v)
      ensures Owns(nb, q, u, v)
    {
      DropKeepsDiscs(b, c, p, u, v);
    }
    assert Line(nb, q, x, y, d);
  }

  /** Conversely, a drop by `p` creates no line for anyone else: a line of
      another player after the drop was already there before it. */
  lemma DropAddsNoOtherLine(b: Board, c: int, p: Player, q: Player, d: Direction)
    requires WellFormed(b) && q != p
    requires WellFormed(Drop(b, c, p)) && LineIn(Drop(b, c, p), q, d)
    ensures LineIn(b, q, d)
  {
    var nb := Drop(b, c, p);
    var x, y :| 0 <= x < Columns && 0 <= y < Rows && Line(nb, q, x, y, d);
    forall u, v | Owns(nb, q, u, v)
      ensures Owns(b, q, u, v)
    {
      DropWritesOnlyMover(b, c, p, u, v);
    }
    assert Line(b, q, x, y, d);
  }

  /** A drop by `p` can only make `p` a winner: any other player who wins
      afterwards already won before. */
  lemma DropAddsNoOtherWinner(b: Board, c: int, p: Player, q: Player)
    requires WellFormed(b) && q != p && Wins(Drop(b, c, p), q)
    ensures Wins(b, q)
  {
    var nb := Drop(b, c, p);
    if LineIn(nb, q, Vertical) {
      DropAddsNoOtherLine(b, c, p, q, Vertical);
    } else if LineIn(nb, q, Horizontal) {
      DropAddsNoOtherLine(b, c, p, q, Horizontal);
    } else if LineIn(nb, q, UpDiagonal) {
      DropAddsNoOtherLine(b, c, p, q, UpDiagonal);
    } else {
      DropAddsNoOtherLine(b, c, p, q, DownDiagonal);
    }
  }

  /** The empty board is a win for nobody. */
  lemma EmptyBoardHasNoWinner(p: Player)
    ensures !Wins(GenEmptyBoard(), p)
  {
  }
}
