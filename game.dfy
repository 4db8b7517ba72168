/** The game state machine: the state the board is kept in, its two
    constructors and the reducer's 'turn' and 'reset' actions. */
module Game {
  import opened Board
  import opened WinCheck

  /** `winner` is None while the game runs, Some(p) after a win of p, and
      Some(Player0) after a draw. The colours are carried along but never
      read by the rules. */
  datatype State = State(
    currentPlayer: Player,
    winner: Option<Player>,
    board: Board,
    color1: string,
    color2: string)

  datatype Action = Turn(column: int) | Reset(starter: Player)

  /** The player who moves after `p`: 'player1' hands over to 'player2',
      anything else to 'player1'. Between the two real players this is a
      swap, since a Player has only three values. */
  function Other(p: Player): (q: Player)
    ensures q != p && q != Player0
    ensures p != Player1 ==> q == Player1
  {
    if p == Player1 then Player2 else Player1
  }

  /** The state the app starts with. */
  function InitState(player: Player): (s: State)
    ensures s.currentPlayer == player && s.winner == None
    ensures WellFormed(s.board) && forall c, r :: 0 <= c < Columns && 0 <= r < Rows ==> s.board[c][r] == Empty
    ensures s.color1 == "#f00" && s.color2 == "#ff0"
  {
    State(player, None, GenEmptyBoard(), "#f00", "#ff0")
  }

  /** A fresh game that keeps the given colours. */
  function CurrentState(player: Player, curColor1: string, curColor2: string): (s: State)
    ensures s.currentPlayer == player && s.winner == None
    ensures WellFormed(s.board) && forall c, r :: 0 <= c < Columns && 0 <= r < Rows ==> s.board[c][r] == Empty
    ensures s.color1 == curColor1 && s.color2 == curColor2
  {
    State(player, None, GenEmptyBoard(), curColor1, curColor2)
  }

  /** What the reducer needs to run a 'turn' without throwing: a 7x6 board
      and a column index that names one of its columns. */
  predicate CanDispatch(state: State, action: Action)
  {
    action.Turn? ==> WellFormed(state.board) && 0 <= action.column < Columns
  }

  /** The reducer, limited to 'turn' and 'reset'. It never looks at
      `state.winner`. */
  function Reducer(state: State, action: Action): (next: State)
    requires CanDispatch(state, action)
    ensures next.color1 == state.color1 && next.color2 == state.color2
    ensures action.Turn? ==> WellFormed(next.board)
  {
    match action
    case Turn(column) =>
      var newBoard := Drop(state.board, column, state.currentPlayer);
      if Wins(newBoard, state.currentPlayer) then
        state.(winner := Some(state.currentPlayer), board := newBoard)
      else if Playable(newBoard) then
        if HasEmpty(state.board[column]) then
          state.(currentPlayer := Other(state.currentPlayer), board := newBoard)
        else
          state
      else
        state.(winner := Some(Player0), board := newBoard)
    case Reset(starter) =>
      CurrentState(starter, state.color1, state.color2)
  }

  /** A move that completes four in a row: the mover is recorded as the
      winner, the new board is installed and the mover stays current. */
  lemma TurnThatWins(s: State, c: int)
    requires WellFormed(s.board) && 0 <= c < Columns
    requires Wins(Drop(s.board, c, s.currentPlayer), s.currentPlayer)
    ensures Reducer(s, Turn(c)).winner == Some(s.currentPlayer)
    ensures Reducer(s, Turn(c)).currentPlayer == s.currentPlayer
    ensures Reducer(s, Turn(c)).board == Drop(s.board, c, s.currentPlayer)
  {
  }

  /** A move that wins for nobody and leaves no top slot empty: a draw,
      recorded as winner 'player0', with the new board installed. */
  lemma TurnThatFillsTheBoard(s: State, c: int)
    requires WellFormed(s.board) && 0 <= c < Columns
    requires !Wins(Drop(s.board, c, s.currentPlayer), s.currentPlayer)
    requires !Playable(Drop(s.board, c, s.currentPlayer))
    ensures Reducer(s, Turn(c)).winner == Some(Player0)
    ensures Reducer(s, Turn(c)).currentPlayer == s.currentPlayer
    ensures Reducer(s, Turn(c)).board == Drop(s.board, c, s.currentPlayer)
  {
  }

  /** An ordinary move: the disc lands in the lowest empty slot of the
      column, nothing else on the board changes, the turn passes to the
      other player and the recorded winner is left as it was. */
  lemma TurnThatContinues(s: State, c: int, i: int)
    requires WellFormed(s.board) && 0 <= c < Columns
    requires 0 <= i < Rows && s.board[c][i] == Empty
    requires forall k :: i < k < Rows ==> s.board[c][k] != Empty
    requires !Wins(Drop(s.board, c, s.currentPlayer), s.currentPlayer)
    requires Playable(Drop(s.board, c, s.currentPlayer))
    ensures Reducer(s, Turn(c)).currentPlayer == Other(s.currentPlayer) != s.currentPlayer
    ensures Reducer(s, Turn(c)).winner == s.winner
    ensures Reducer(s, Turn(c)).board[c][i] == Disc(s.currentPlayer)
    ensures forall k :: 0 <= k < Rows && k != i ==> Reducer(s, Turn(c)).board[c][k] == s.board[c][k]
    ensures forall j :: 0 <= j < Columns && j != c ==> Reducer(s, Turn(c)).board[j] == s.board[j]
  {
    DropFillsLowestEmpty(s.board, c, s.currentPlayer, i);
    assert HasEmpty(s.board[c]);
  }

  /** A move into a full column drops nothing. The reducer still runs the
      win and draw checks on the unchanged board first, so the state comes
      back unchanged only when those checks fail and some top slot is
      empty. */
  lemma TurnIntoFullColumn(s: State, c: int)
    requires WellFormed(s.board) && 0 <= c < Columns && !HasEmpty(s.board[c])
    ensures Reducer(s, Turn(c)) ==
      if Wins(s.board, s.currentPlayer) then s.(winner := Some(s.currentPlayer))
      else if Playable(s.board) then s
      else s.(winner := Some(Player0))
  {
    DropIntoFullColumn(s.board, c, s.currentPlayer);
  }

  /** 'reset' discards board and outcome whatever the prior state was. */
  lemma ResetFromAnyState(s: State, p: Player)
    ensures Reducer(s, Reset(p)).currentPlayer == p
    ensures Reducer(s, Reset(p)).winner == None
    ensures WellFormed(Reducer(s, Reset(p)).board)
    ensures forall c, r :: 0 <= c < Columns && 0 <= r < Rows ==> Reducer(s, Reset(p)).board[c][r] == Empty
    ensures Reducer(s, Reset(p)).color1 == s.color1 && Reducer(s, Reset(p)).color2 == s.color2
  {
  }

  /** The invariant of every state the game reaches: a settled 7x6 board
      and a real player to move; while the game runs, a move is left and
      nobody has four in a row; after a win, the winner has four in a row,
      is still the current player, and the other player has none; after a
      draw, no top slot is empty and nobody has four in a row. */
  ghost predicate Consistent(s: State)
  {
    && WellFormed(s.board)
    && Gravity(s.board)
    && s.currentPlayer != Player0
    && (s.winner == None ==>
          Playable(s.board) && !Wins(s.board, Player1) && !Wins(s.board, Player2))
    && (s.winner == Some(Player0) ==>
          !Playable(s.board) && !Wins(s.board, Player1) && !Wins(s.board, Player2))
    && (s.winner.Some? && s.winner.value != Player0 ==>
          s.currentPlayer == s.winner.value && Wins(s.board, s.winner.value)
          && !Wins(s.board, Other(s.winner.value)))
  }

  lemma InitStateConsistent(p: Player)
    requires p != Player0
    ensures Consistent(InitState(p))
  {
    var b := InitState(p).board;
    assert At(b[0], 0) == Empty;
    EmptyBoardHasNoWinner(Player1);
    EmptyBoardHasNoWinner(Player2);
  }

  /** Every 'turn' keeps the invariant, and so does every 'reset' to a real
      player (the app only ever resets to 'player1' or 'player2'). */
  lemma ReducerKeepsConsistent(s: State, a: Action)
    requires Consistent(s)
    requires a.Turn? ==> 0 <= a.column < Columns
    requires a.Reset? ==> a.starter != Player0
    ensures CanDispatch(s, a) && Consistent(Reducer(s, a))
  {
    match a
    case Turn(c) =>
      var cp := s.currentPlayer;
      var o := Other(cp);
      var nb := Drop(s.board, c, cp);
      DropKeepsShape(s.board, c, cp);
      assert !Wins(s.board, o);
      if Wins(nb, o) {
        DropAddsNoOtherWinner(s.board, c, cp, o);
        assert false;
      }
      var next := Reducer(s, a);
      if Wins(nb, cp) {
        assert next == s.(winner := Some(cp), board := nb);
      } else if Playable(nb) {
        if HasEmpty(s.board[c]) {
          assert next == s.(currentPlayer := o, board := nb);
          if s.winner.Some? {
            if s.winner == Some(Player0) {
              PlayableIffRoom(s.board);
              assert false;
            } else {
              DropKeepsWins(s.board, c, cp, cp);
              assert false;
            }
          }
        } else {
          assert next == s;
        }
      } else {
        assert next == s.(winner := Some(Player0), board := nb);
      }
    case Reset(p) =>
      InitStateConsistent(p);
  }

  /** In every state the game reaches, a move into a full column leaves the
      state unchanged: the win and draw checks the reducer runs first only
      confirm the outcome already recorded. */
  lemma FullColumnIsNoOp(s: State, c: int)
    requires Consistent(s) && 0 <= c < Columns && !HasEmpty(s.board[c])
    ensures Reducer(s, Turn(c)) == s
  {
    DropIntoFullColumn(s.board, c, s.currentPlayer);
  }

  /** In every state the game reaches, the two players never both have
      four in a row. */
  lemma NeverTwoWinners(s: State)
    requires Consistent(s)
    ensures !(Wins(s.board, Player1) && Wins(s.board, Player2))
  {
  }

  /** The reducer does not stop a finished game: after a win, a further
      'turn' still drops the winner's disc into the board, and the winner
      stays recorded because the old line of four survives the drop. */
  lemma WinIsKept(s: State, c: int)
    requires Consistent(s) && 0 <= c < Columns
    requires s.winner.Some? && s.winner != Some(Player0)
    ensures Reducer(s, Turn(c)).winner == s.winner
    ensures Reducer(s, Turn(c)).currentPlayer == s.currentPlayer
    ensures Reducer(s, Turn(c)).board == Drop(s.board, c, s.currentPlayer)
  {
    DropKeepsWins(s.board, c, s.currentPlayer, s.currentPlayer);
  }

  /** After a draw every column is full, so a further 'turn' gives back
      the very same state. */
  lemma DrawIsStable(s: State, c: int)
    requires Consistent(s) && 0 <= c < Columns
    requires s.winner == Some(Player0)
    ensures Reducer(s, Turn(c)) == s
  {
    PlayableIffRoom(s.board);
    DropIntoFullColumn(s.board, c, s.currentPlayer);
  }
}
