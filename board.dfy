/** The board model of the Connect-4 rules engine: players, tokens, the
    7-column by 6-row board indexed `board[column][row]` (row 0 is the top,
    row 5 the bottom), the drop of a token and the "any move left" test. */
module Board {

  datatype Option<T> = None | Some(value: T)

  /** 'player0' is not a real player: the reducer stores it as the winner
      of a drawn game. */
  datatype Player = Player1 | Player2 | Player0

  /** A slot is either `undefined` (Empty) or holds a player's disc. */
  datatype Token = Empty | Disc(owner: Player)

  /** `Token[][]`: a sequence of columns, each a sequence of slots. */
  type Board = seq<seq<Token>>

  const Columns: nat := 7
  const Rows: nat := 6

  /** The shape every board of the game has: 7 columns of 6 slots. */
  predicate WellFormed(b: Board)
  {
    |b| == Columns && forall c :: 0 <= c < |b| ==> |b[c]| == Rows
  }

  /** Reading slot `r` of a column the way JavaScript does: an index past
      either end yields `undefined`. */
  function At(col: seq<Token>, r: int): Token
  {
    if 0 <= r < |col| then col[r] else Empty
  }

  /** A column is settled when no empty slot lies below an occupied one
      (empty slots form a prefix starting at the top, row 0). */
  ghost predicate Settled(col: seq<Token>)
  {
    forall i, j :: 0 <= i < j < |col| && col[j] == Empty ==> col[i] == Empty
  }

  ghost predicate Gravity(b: Board)
  {
    forall c :: 0 <= c < |b| ==> Settled(b[c])
  }

  /** `Array(7).fill(undefined).map(() => Array(6).fill(undefined))` */
  function GenEmptyBoard(): (b: Board)
    ensures WellFormed(b)
    ensures forall c, r :: 0 <= c < Columns && 0 <= r < Rows ==> b[c][r] == Empty
    ensures Gravity(b)
  {
    seq(Columns, _ => seq(Rows, _ => Empty))
  }

  /** `column.some(cell => cell == undefined)`: it agrees with the
      bottom-up scan of `genNewBoard` on whether the column has room. */
  function HasEmpty(col: seq<Token>): (r: bool)
    ensures r <==> LastEmpty(col).Some?
  {
    exists k :: 0 <= k < |col| && col[k] == Empty
  }

  /** The highest index holding an empty slot, i.e. the lowest empty slot
      on screen; None when the column has no empty slot. */
  function LastEmpty(col: seq<Token>): (r: Option<nat>)
    ensures r.Some? ==> r.value < |col| && col[r.value] == Empty
    ensures r.Some? ==> forall k :: r.value < k < |col| ==> col[k] != Empty
    ensures r.None? ==> forall k :: 0 <= k < |col| ==> col[k] != Empty
  {
    if |col| == 0 then None
    else if col[|col| - 1] == Empty then Some(|col| - 1)
    else LastEmpty(col[..|col| - 1])
  }

  /** The board `genNewBoard` returns: the played column gets `p` in its
      lowest empty slot; a full column, or an index that names no column,
      leaves the board as it was. */
  function Drop(b: Board, c: int, p: Player): (nb: Board)
    ensures |nb| == |b|
    ensures forall i :: 0 <= i < |b| ==> |nb[i]| == |b[i]|
  {
    if 0 <= c < |b| then
      match LastEmpty(b[c])
      case Some(i) => b[c := b[c][i := Disc(p)]]
      case None => b
    else b
  }

  /** genNewBoard: copies the played column, then scans it from the bottom
      slot upwards and writes the player's disc into the first empty slot. */
  method GenNewBoard(board: Board, playedColumn: int, currentPlayer: Player) returns (nb: Board)
    ensures nb == Drop(board, playedColumn, currentPlayer)
  {
    if !(0 <= playedColumn < |board|) {
      return board;
    }
    var column := board[playedColumn];
    var newColumn := new Token[|column|](k requires 0 <= k < |column| => column[k]);
    var index := newColumn.Length - 1;
    while index >= 0
      invariant -1 <= index < newColumn.Length
      invariant newColumn[..] == column
      invariant forall k :: index < k < |column| ==> column[k] != Empty
    {
      if newColumn[index] == Empty {
        newColumn[index] := Disc(currentPlayer);
        break;
      }
      index := index - 1;
    }
    nb := board[playedColumn := newColumn[..]];
  }

  /** Reference meaning of `canPlay`: some column's top slot is `undefined`. */
  predicate Playable(b: Board)
  {
    exists i :: 0 <= i < |b| && At(b[i], 0) == Empty
  }

  /** canPlay: scans the columns left to right and stops at the first one
      whose top slot is empty. */
  method CanPlay(board: Board) returns (r: bool)
    ensures r == Playable(board)
  {
    for i := 0 to |board|
      invariant forall k :: 0 <= k < i ==> At(board[k], 0) != Empty
    {
      if At(board[i], 0) == Empty {
        return true;
      }
    }
    return false;
  }

  /** A drop into a column that has an empty slot fills exactly its lowest
      empty slot and changes nothing else. */
  lemma DropFillsLowestEmpty(b: Board, c: int, p: Player, i: int)
    requires 0 <= c < |b| && 0 <= i < |b[c]| && b[c][i] == Empty
    requires forall k :: i < k < |b[c]| ==> b[c][k] != Empty
    ensures |Drop(b, c, p)| == |b| && |Drop(b, c, p)[c]| == |b[c]|
    ensures Drop(b, c, p)[c][i] == Disc(p)
    ensures forall k :: 0 <= k < |b[c]| && k != i ==> Drop(b, c, p)[c][k] == b[c][k]
    ensures forall j :: 0 <= j < |b| && j != c ==> Drop(b, c, p)[j] == b[j]
  {
    var r := LastEmpty(b[c]);
    assert r.Some?;
    assert r.value == i;
  }

  /** A column without an empty slot (or an index naming no column) leaves
      the board equal to its input. */
  lemma DropIntoFullColumn(b: Board, c: int, p: Player)
    requires !(0 <= c < |b|) || !HasEmpty(b[c])
    ensures Drop(b, c, p) == b
  {
    if 0 <= c < |b| {
      assert LastEmpty(b[c]).None?;
    }
  }

  /** The drop only ever writes into an empty slot: every disc already on
      the board is still there afterwards. */
  lemma DropKeepsDiscs(b: Board, c: int, p: Player, x: int, y: int)
    requires 0 <= x < |b| && 0 <= y < |b[x]| && b[x][y] != Empty
    ensures Drop(b, c, p)[x][y] == b[x][y]
  {
  }

  /** The drop keeps the 7x6 shape and the gravity invariant. */
  lemma DropKeepsShape(b: Board, c: int, p: Player)
    requires WellFormed(b) && Gravity(b)
    ensures WellFormed(Drop(b, c, p)) && Gravity(Drop(b, c, p))
  {
  }

  /** On a settled board, `canPlay`'s look at the top row alone is the same
      as asking whether some column still has an empty slot. */
  lemma PlayableIffRoom(b: Board)
    requires WellFormed(b) && Gravity(b)
    ensures Playable(b) <==> exists c :: 0 <= c < |b| && HasEmpty(b[c])
  {
  }

  /** The only disc a drop writes is the mover's: a slot that does not hold
      the mover's disc afterwards is exactly what it was before. */
  lemma DropWritesOnlyMover(b: Board, c: int, p: Player, x: int, y: int)
    requires 0 <= x < |b| && 0 <= y < |b[x]| && Drop(b, c, p)[x][y] != Disc(p)
    ensures Drop(b, c, p)[x][y] == b[x][y]
  {
  }
}
