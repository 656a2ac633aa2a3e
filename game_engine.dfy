/**
 * The tic-tac-toe engine of the game component (client/src/components/Game.tsx)
 * without its rendering: win detection, the move transition, restart, the
 * record built when a game ends, the status line and the name lock.
 */
module GameEngine {

  import opened Wrappers
  import opened GameTypes

  /** An index into the 9-cell board: rows 0-2, 3-5, 6-8. */
  type Cell = i: nat | i < 9

  /** The eight lines in the order the source scans them: rows, columns, diagonals. */
  const Lines: seq<(Cell, Cell, Cell)> := [
    (0, 1, 2), (3, 4, 5), (6, 7, 8),
    (0, 3, 6), (1, 4, 7), (2, 5, 8),
    (0, 4, 8), (2, 4, 6)
  ]

  /** The board every game starts from. */
  function EmptyBoard(): (b: seq<Square>)
    ensures |b| == 9 && forall i :: 0 <= i < 9 ==> b[i] == Empty
  {
    seq(9, _ => Empty)
  }

  /** Line `k` holds three equal marks. */
  predicate LineWon(b: seq<Square>, k: nat)
    requires |b| == 9 && k < |Lines|
  {
    var (p, q, r) := Lines[k];
    b[p] != Empty && b[p] == b[q] && b[p] == b[r]
  }

  /** The mark on the first cell of line `k`. */
  function LineMark(b: seq<Square>, k: nat): Square
    requires |b| == 9 && k < |Lines|
  {
    b[Lines[k].0]
  }

  /**
   * The mark of the first won line at or after position `k` of the scan
   * order, or `Empty` when none of those lines is won.
   */
  function WinnerFrom(b: seq<Square>, k: nat): (r: Square)
    requires |b| == 9 && k <= |Lines|
    ensures r == Empty <==> forall j :: k <= j < |Lines| ==> !LineWon(b, j)
    ensures r != Empty ==>
      exists j :: k <= j < |Lines| && LineWon(b, j) && r == LineMark(b, j) &&
        forall i :: k <= i < j ==> !LineWon(b, i)
    decreases |Lines| - k
  {
    if k == |Lines| then Empty
    else if LineWon(b, k) then LineMark(b, k)
    else WinnerFrom(b, k + 1)
  }

  /** `calculateWinner` as a value: the mark of the first won line, if any. */
  function Winner(b: seq<Square>): (r: Square)
    requires |b| == 9
    ensures r == Empty <==> forall j :: 0 <= j < |Lines| ==> !LineWon(b, j)
    ensures r != Empty ==>
      exists j :: 0 <= j < |Lines| && LineWon(b, j) && r == LineMark(b, j) &&
        forall i :: 0 <= i < j ==> !LineWon(b, i)
  {
    WinnerFrom(b, 0)
  }

  /** `calculateWinner`: scans the lines in order and returns at the first won one. */
  method CalculateWinner(squares: array<Square>) returns (w: Square)
    requires squares.Length == 9
    ensures w == Winner(squares[..])
  {
    for k := 0 to |Lines|
      invariant WinnerFrom(squares[..], k) == Winner(squares[..])
    {
      var (a, b, c) := Lines[k];
      if squares[a] != Empty && squares[a] == squares[b] && squares[a] == squares[c] {
        return squares[a];
      }
    }
    return Empty;
  }

  /** Every cell is filled (`board.every(square => square !== null)`). */
  predicate IsFull(b: seq<Square>) {
    forall i :: 0 <= i < |b| ==> b[i] != Empty
  }

  /** Some cell is filled (`isGameStarted`). */
  predicate IsStarted(b: seq<Square>) {
    exists i :: 0 <= i < |b| && b[i] != Empty
  }

  /** No winner and no free cell. */
  predicate IsDraw(b: seq<Square>)
    requires |b| == 9
  {
    Winner(b) == Empty && IsFull(b)
  }

  /** The game has reached a terminal state. */
  predicate IsOver(b: seq<Square>)
    requires |b| == 9
  {
    Winner(b) != Empty || IsFull(b)
  }

  /** The number of cells holding mark `m`. */
  function CountMark(b: seq<Square>, m: Mark): (n: nat)
    ensures n <= |b|
  {
    if b == [] then 0 else (if b[0] == Taken(m) then 1 else 0) + CountMark(b[1..], m)
  }

  /** Filling an empty cell with `m` adds one to the count of `m` and leaves the other count alone. */
  lemma {:induction false} CountAfterPlacing(b: seq<Square>, i: nat, m: Mark, n: Mark)
    requires i < |b| && b[i] == Empty
    ensures CountMark(b[i := Taken(m)], n) == CountMark(b, n) + (if m == n then 1 else 0)
  {
    if i == 0 {
      assert b[i := Taken(m)][1..] == b[1..];
    } else {
      assert b[i := Taken(m)][1..] == b[1..][i - 1 := Taken(m)];
      CountAfterPlacing(b[1..], i - 1, m, n);
    }
  }

  /** The two marks together occupy every filled cell: full means 9 marks, started means at least one. */
  lemma {:induction false} MarksFillBoard(b: seq<Square>)
    ensures CountMark(b, X) + CountMark(b, O) <= |b|
    ensures CountMark(b, X) + CountMark(b, O) == |b| <==> IsFull(b)
    ensures CountMark(b, X) + CountMark(b, O) > 0 <==> IsStarted(b)
  {
    if b != [] {
      var t := b[1..];
      MarksFillBoard(t);
      assert forall i :: 1 <= i < |b| ==> b[i] == t[i - 1];
      assert CountMark(b, X) == (if b[0] == Taken(X) then 1 else 0) + CountMark(t, X);
      assert CountMark(b, O) == (if b[0] == Taken(O) then 1 else 0) + CountMark(t, O);
      match b[0] {
        case Empty =>
        case Taken(m) => assert m == X || m == O;
      }
      assert IsFull(b) <==> b[0] != Empty && IsFull(t);
      if IsStarted(t) {
        var i :| 0 <= i < |t| && t[i] != Empty;
        assert b[i + 1] != Empty;
      }
      assert IsStarted(b) <==> b[0] != Empty || IsStarted(t);
    }
  }

  /** X moves first and turns alternate: X leads O by at most one, and it is X's turn exactly when they are level. */
  predicate Balanced(b: seq<Square>, isXNext: bool) {
    var x, o := CountMark(b, X), CountMark(b, O);
    (x == o || x == o + 1) && (isXNext <==> x == o)
  }

  /** Every won line carries the same mark, so the scan order never decides between two players. */
  predicate SingleWinningMark(b: seq<Square>)
    requires |b| == 9
  {
    forall j, k :: 0 <= j < |Lines| && 0 <= k < |Lines| && LineWon(b, j) && LineWon(b, k) ==>
      LineMark(b, j) == LineMark(b, k)
  }

  /**
   * The invariant of every state the engine can reach: the marks are
   * balanced with the turn, `gameOver` holds exactly when the board is won
   * or full, all won lines agree, and the winner made the last move.
   */
  predicate Consistent(b: seq<Square>, isXNext: bool, gameOver: bool) {
    && |b| == 9
    && Balanced(b, isXNext)
    && gameOver == IsOver(b)
    && SingleWinningMark(b)
    && (Winner(b) == Taken(X) ==> !isXNext)
    && (Winner(b) == Taken(O) ==> isXNext)
  }

  /** A fresh game is consistent. */
  lemma InitialConsistent()
    ensures Consistent(EmptyBoard(), true, false)
  {
    var b := EmptyBoard();
    MarksFillBoard(b);
    assert !IsFull(b) by { assert b[0] == Empty; }
    assert forall j :: 0 <= j < |Lines| ==> !LineWon(b, j);
  }

  /** Every won line carries `m`. */
  predicate AllWonBy(b: seq<Square>, m: Mark)
    requires |b| == 9
  {
    forall j :: 0 <= j < |Lines| && LineWon(b, j) ==> LineMark(b, j) == Taken(m)
  }

  /**
   * On a board nobody has won yet, placing `m` in a free cell can only
   * complete lines of `m`.
   */
  lemma PlacingOnlyHelpsMover(b: seq<Square>, i: Cell, m: Mark)
    requires |b| == 9 && b[i] == Empty && Winner(b) == Empty
    ensures AllWonBy(b[i := Taken(m)], m)
    ensures Winner(b[i := Taken(m)]) == Empty || Winner(b[i := Taken(m)]) == Taken(m)
  {
    var b' := b[i := Taken(m)];
    forall j | 0 <= j < |Lines| && LineWon(b', j) ensures LineMark(b', j) == Taken(m) {
      var (p, q, r) := Lines[j];
      if p != i && q != i && r != i {
        assert LineWon(b, j);
      }
    }
  }

  /** An accepted move keeps the engine's invariant, with `gameOver` recomputed from the new board. */
  lemma MovePreservesConsistency(b: seq<Square>, i: Cell, isXNext: bool)
    requires Consistent(b, isXNext, false) && b[i] == Empty
    ensures var b' := b[i := Taken(if isXNext then X else O)];
      Consistent(b', !isXNext, IsOver(b'))
  {
    var m := if isXNext then X else O;
    CountAfterPlacing(b, i, m, X);
    CountAfterPlacing(b, i, m, O);
    PlacingOnlyHelpsMover(b, i, m);
  }

  /** The mark of the player to move. */
  function MarkOf(isXNext: bool): Mark {
    if isXNext then X else O
  }

  /**
   * The record `saveGame` builds for a finished board: `'Draw'` for a draw,
   * otherwise the name of the side whose mark won.
   */
  function FinishedRecord(b: seq<Square>, playerX: string, playerO: string, now: int): (r: GameResult)
    requires |b| == 9 && IsOver(b)
    ensures r.playerX == playerX && r.playerO == playerO && r.date == now
    ensures IsDraw(b) ==> r.winner == DrawMarker
    ensures Winner(b) == Taken(X) ==> r.winner == playerX
    ensures Winner(b) == Taken(O) ==> r.winner == playerO
  {
    var winner := Winner(b);
    var isDraw := winner == Empty && IsFull(b);
    GameResult(playerX, playerO, if isDraw then DrawMarker else if winner == Taken(X) then playerX else playerO, now)
  }

  /** The status line shown above the board. */
  function Status(b: seq<Square>, isXNext: bool, playerX: string, playerO: string): string
    requires |b| == 9
  {
    var winner := Winner(b);
    if winner != Empty then
      "Winner: " + (if winner == Taken(X) then playerX else playerO)
    else if IsDraw(b) then
      "It's a draw!"
    else
      "Next player: " + (if isXNext then playerX else playerO) + " (" + (if isXNext then "X" else "O") + ")"
  }

  /**
   * The status line can be read back: its first letter tells a won, drawn
   * and unfinished game apart; after "Winner: " stands the winner's name; a
   * draw reads "It's a draw!"; and the line of an unfinished game names the
   * player to move and ends with that player's mark.
   */
  lemma StatusShowsPhase(b: seq<Square>, isXNext: bool, playerX: string, playerO: string)
    requires |b| == 9
    ensures var s := Status(b, isXNext, playerX, playerO);
      && |s| > 0
      && (s[0] == 'W' <==> Winner(b) != Empty)
      && (s[0] == 'I' <==> IsDraw(b))
      && (s[0] == 'N' <==> !IsOver(b))
      && (Winner(b) == Taken(X) ==> s[8..] == playerX)
      && (Winner(b) == Taken(O) ==> s[8..] == playerO)
      && (IsDraw(b) ==> s == "It's a draw!")
      && (!IsOver(b) ==> |s| >= 17 && s[13..|s| - 4] == (if isXNext then playerX else playerO))
      && (!IsOver(b) ==> s[|s| - 2] == (if isXNext then 'X' else 'O'))
  {
  }

  /** In a reachable finished game the status names the player who made the last move. */
  lemma StatusNamesLastMover(b: seq<Square>, isXNext: bool, playerX: string, playerO: string)
    requires Consistent(b, isXNext, true) && Winner(b) != Empty
    ensures Status(b, isXNext, playerX, playerO) == "Winner: " + (if isXNext then playerO else playerX)
  {
    if Winner(b) == Taken(X) {
      assert !isXNext;
    } else {
      assert Winner(b).Taken?;
      assert Winner(b).mark == O;
      assert isXNext;
    }
  }

  /** `squares.slice()` followed by `newSquares[i] = s`: a fresh copy with one cell replaced. */
  method CopyWith(squares: array<Square>, i: Cell, s: Square) returns (copy: array<Square>)
    requires squares.Length == 9
    ensures fresh(copy) && copy.Length == 9
    ensures copy[..] == squares[..][i := s]
  {
    copy := new Square[9];
    forall j | 0 <= j < 9 {
      copy[j] := squares[j];
    }
    copy[i] := s;
  }

  /**
   * The game component's state. `handleClick` and `restartGame` replace the
   * board with a fresh array, as the source's `slice` and `Array(9).fill`
   * do; the player names change only through the two setters.
   */
  class Game {
    var board: array<Square>
    var isXNext: bool
    var gameOver: bool
    var playerX: string
    var playerO: string

    ghost predicate Valid()
      reads this, board
    {
      board.Length == 9 && Consistent(board[..], isXNext, gameOver)
    }

    /** The initial state: an empty board, X to move, default names. */
    constructor ()
      ensures Valid() && fresh(board)
      ensures board[..] == EmptyBoard() && isXNext && !gameOver
      ensures playerX == "Player 1" && playerO == "Player 2"
    {
      board := new Square[9](_ => Empty);
      isXNext := true;
      playerX := "Player 1";
      playerO := "Player 2";
      gameOver := false;
      new;
      assert board[..] == EmptyBoard();
      InitialConsistent();
    }

    /**
     * `handleClick(i)`: ignored on a filled cell or a finished game;
     * otherwise writes the mover's mark into a copy of the board, recomputes
     * `gameOver` and hands the turn over. When the move ends the game, the
     * record `saveGame` would post is returned.
     */
    method HandleClick(i: Cell, now: int) returns (saved: Option<GameResult>)
      requires Valid()
      modifies this
      ensures Valid()
      ensures playerX == old(playerX) && playerO == old(playerO)
      ensures forall j :: 0 <= j < 9 && old(board[..])[j] != Empty ==> board[..][j] == old(board[..])[j]
      ensures old(board[i]) != Empty || old(gameOver) ==>
        && board == old(board) && board[..] == old(board[..])
        && isXNext == old(isXNext) && gameOver == old(gameOver)
        && saved == None
      ensures old(board[i]) == Empty && !old(gameOver) ==>
        && fresh(board)
        && board[..] == old(board[..])[i := Taken(MarkOf(old(isXNext)))]
        && isXNext == !old(isXNext)
        && gameOver == IsOver(board[..])
        && IsStarted(board[..])
        && saved == (if gameOver then Some(FinishedRecord(board[..], playerX, playerO, now)) else None)
        && (saved.Some? && !IsDraw(board[..]) ==>
              saved.value.winner == (if old(isXNext) then playerX else playerO))
    {
      if board[i] != Empty || gameOver {
        return None;
      }
      ghost var before := board[..];
      var newBoard := CopyWith(board, i, Taken(MarkOf(isXNext)));
      MovePreservesConsistency(before, i, isXNext);
      PlacingOnlyHelpsMover(before, i, MarkOf(isXNext));
      board := newBoard;

      var winner := CalculateWinner(newBoard);
      var isDraw := winner == Empty && IsFull(newBoard[..]);
      saved := None;
      if winner != Empty || isDraw {
        gameOver := true;
        saved := Some(GameResult(playerX, playerO, if isDraw then DrawMarker else if winner == Taken(X) then playerX else playerO, now));
      }
      isXNext := !isXNext;
      assert newBoard[i] != Empty;
    }

    /** `restartGame`: an empty board with X to move; the names stay. */
    method RestartGame()
      modifies this
      ensures Valid() && fresh(board)
      ensures board[..] == EmptyBoard() && isXNext && !gameOver
      ensures playerX == old(playerX) && playerO == old(playerO)
    {
      board := new Square[9](_ => Empty);
      isXNext := true;
      gameOver := false;
      assert board[..] == EmptyBoard();
      InitialConsistent();
    }

    /** Renames side X; the input is enabled only before the first move. */
    method SetPlayerX(name: string)
      requires Valid() && !IsStarted(board[..])
      modifies this`playerX
      ensures Valid() && playerX == name
    {
      playerX := name;
    }

    /** Renames side O; the input is enabled only before the first move. */
    method SetPlayerO(name: string)
      requires Valid() && !IsStarted(board[..])
      modifies this`playerO
      ensures Valid() && playerO == name
    {
      playerO := name;
    }
  }
}
