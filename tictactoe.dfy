/** The browser tic-tac-toe game (local/Tic-Tac-Toe/script.js): a nine-cell
    board, the player to move and an "active" flag, changed by cell clicks
    and by the reset button. The rules are given as pure functions over a
    `Game` value; the class `Board` keeps the same state in mutable fields
    and its methods are proved to follow those functions. */
module TicTacToe {

  /** The content of a cell: '' (empty), 'X' or 'O'. */
  datatype Mark = Empty | X | O

  /** The player who moves after `m`. */
  function Other(m: Mark): (r: Mark)
    ensures m == X ==> r == O
    ensures m == O ==> r == X
  {
    if m == X then O else X
  }

  /** A cell index, the `data-index` attribute of a cell. */
  type Index = i: int | 0 <= i < 9

  /** The eight winning combinations: rows, columns, diagonals. */
  const Lines: seq<(Index, Index, Index)> :=
    [(0, 1, 2), (3, 4, 5), (6, 7, 8),
     (0, 3, 6), (1, 4, 7), (2, 5, 8),
     (0, 4, 8), (2, 4, 6)]

  /** Three cells hold the same non-empty mark. */
  predicate Three(b: seq<Mark>, i: Index, j: Index, k: Index)
    requires |b| == 9
  {
    b[i] != Empty && b[i] == b[j] && b[i] == b[k]
  }

  /** The callback given to `some`: combination `l` is taken. */
  predicate LineWon(b: seq<Mark>, l: (Index, Index, Index))
    requires |b| == 9
  {
    Three(b, l.0, l.1, l.2)
  }

  /** `ls.some(combination => ...)`. */
  function SomeLineWon(b: seq<Mark>, ls: seq<(Index, Index, Index)>): (r: bool)
    requires |b| == 9
    ensures r <==> exists k :: 0 <= k < |ls| && LineWon(b, ls[k])
  {
    if ls == [] then false
    else
      var rest := SomeLineWon(b, ls[1..]);
      assert forall k :: 1 <= k < |ls| ==> ls[k] == ls[1..][k - 1];
      LineWon(b, ls[0]) || rest
  }

  /** `checkWinner()`: some winning combination is taken. */
  predicate CheckWinner(b: seq<Mark>)
    requires |b| == 9
  {
    SomeLineWon(b, Lines)
  }

  /** Row `r` (0..2) is taken. */
  predicate RowWon(b: seq<Mark>, r: int)
    requires |b| == 9 && 0 <= r < 3
  {
    Three(b, 3 * r, 3 * r + 1, 3 * r + 2)
  }

  /** Column `c` (0..2) is taken. */
  predicate ColumnWon(b: seq<Mark>, c: int)
    requires |b| == 9 && 0 <= c < 3
  {
    Three(b, c, c + 3, c + 6)
  }

  /** The board read as a 3x3 grid has three equal marks in a row, a column
      or a diagonal: the rule of the game, stated without the table. */
  predicate ThreeInARow(b: seq<Mark>)
    requires |b| == 9
  {
    (exists r :: 0 <= r < 3 && RowWon(b, r)) ||
    (exists c :: 0 <= c < 3 && ColumnWon(b, c)) ||
    Three(b, 0, 4, 8) || Three(b, 2, 4, 6)
  }

  /** The winning-combinations table lists exactly the rows, the columns
      and the two diagonals. */
  lemma CheckWinnerCorrect(b: seq<Mark>)
    requires |b| == 9
    ensures CheckWinner(b) <==> ThreeInARow(b)
  {
    if ThreeInARow(b) {
      if exists r :: 0 <= r < 3 && RowWon(b, r) {
        var r :| 0 <= r < 3 && RowWon(b, r);
        assert LineWon(b, Lines[r]);
      } else if exists c :: 0 <= c < 3 && ColumnWon(b, c) {
        var c :| 0 <= c < 3 && ColumnWon(b, c);
        assert LineWon(b, Lines[3 + c]);
      } else if Three(b, 0, 4, 8) {
        assert LineWon(b, Lines[6]);
      } else {
        assert LineWon(b, Lines[7]);
      }
    }
    if CheckWinner(b) {
      var k :| 0 <= k < |Lines| && LineWon(b, Lines[k]);
      if k < 3 {
        assert RowWon(b, k);
      } else if k < 6 {
        assert ColumnWon(b, k - 3);
      }
    }
  }

  /** `gameBoard.every(cell => cell !== '')`. */
  predicate Full(b: seq<Mark>)
  {
    forall k :: 0 <= k < |b| ==> b[k] != Empty
  }

  /** The whole game state: `gameBoard`, `currentPlayer`, `isGameActive`. */
  datatype Game = Game(board: seq<Mark>, current: Mark, active: bool)

  /** The state at page load and after the reset button. */
  function Initial(): (g: Game)
    ensures |g.board| == 9 && g.active && g.current == X
    ensures forall k :: 0 <= k < 9 ==> g.board[k] == Empty
  {
    Game(seq(9, _ => Empty), X, true)
  }

  /** `handleCellClick` on cell `i`. */
  function Click(g: Game, i: Index): (h: Game)
    requires |g.board| == 9
    ensures |h.board| == 9
    // a filled cell or a finished game ignores the click
    ensures g.board[i] != Empty || !g.active ==> h == g
    // otherwise the mover's mark goes into the clicked cell and nowhere else
    ensures g.board[i] == Empty && g.active ==>
      h.board[i] == g.current &&
      forall k :: 0 <= k < 9 && k != i ==> h.board[k] == g.board[k]
    // the game ends on a win or a full board, and only then
    ensures g.board[i] == Empty && g.active ==>
      (h.active <==> !CheckWinner(h.board) && !Full(h.board))
    // the player toggles while the game goes on and stays the last mover when it ends
    ensures g.board[i] == Empty && g.active ==>
      h.current == (if h.active then Other(g.current) else g.current)
  {
    if g.board[i] != Empty || !g.active then g
    else
      var b := g.board[i := g.current];
      if CheckWinner(b) then Game(b, g.current, false)
      else if Full(b) then Game(b, g.current, false)
      else Game(b, Other(g.current), true)
  }

  /** The state after a sequence of clicks. */
  function Run(g: Game, clicks: seq<Index>): (h: Game)
    requires |g.board| == 9
    ensures |h.board| == 9
    decreases |clicks|
  {
    if clicks == [] then g else Run(Click(g, clicks[0]), clicks[1..])
  }

  /** Number of cells holding `m`. */
  function Count(b: seq<Mark>, m: Mark): (n: nat)
    ensures n <= |b|
  {
    if b == [] then 0 else (if b[0] == m then 1 else 0) + Count(b[1..], m)
  }

  /** Writing `m` into an empty cell adds one `m` and keeps the other counts. */
  lemma {:induction false} CountUpdate(b: seq<Mark>, i: nat, m: Mark, n: Mark)
    requires i < |b| && b[i] == Empty && m != Empty && n != Empty
    ensures Count(b[i := m], n) == Count(b, n) + (if n == m then 1 else 0)
  {
    if i == 0 {
      assert b[i := m][1..] == b[1..];
    } else {
      assert b[i := m][1..] == b[1..][i - 1 := m];
      CountUpdate(b[1..], i - 1, m, n);
    }
  }

  /** A board with no `m` counts zero of it. */
  lemma {:induction false} CountAbsent(b: seq<Mark>, m: Mark)
    requires forall k :: 0 <= k < |b| ==> b[k] != m
    ensures Count(b, m) == 0
  {
    if b != [] {
      CountAbsent(b[1..], m);
    }
  }

  /** The invariant of every reachable state: X moves first and the players
      alternate, so X is ahead by at most one, and while the game is on it
      is X's turn exactly when both have moved equally often. */
  predicate Inv(g: Game)
  {
    |g.board| == 9 && g.current != Empty &&
    0 <= Count(g.board, X) - Count(g.board, O) <= 1 &&
    (g.active ==> (g.current == X <==> Count(g.board, X) == Count(g.board, O)))
  }

  lemma InitialInv()
    ensures Inv(Initial())
  {
    CountAbsent(Initial().board, X);
    CountAbsent(Initial().board, O);
  }

  /** One click keeps the invariant. */
  lemma ClickPreservesInv(g: Game, i: Index)
    requires Inv(g)
    ensures Inv(Click(g, i))
  {
    if g.board[i] == Empty && g.active {
      CountUpdate(g.board, i, g.current, X);
      CountUpdate(g.board, i, g.current, O);
    }
  }

  /** Any sequence of clicks keeps the invariant. */
  lemma {:induction false} RunPreservesInv(g: Game, clicks: seq<Index>)
    requires Inv(g)
    ensures Inv(Run(g, clicks))
    decreases |clicks|
  {
    if clicks != [] {
      ClickPreservesInv(g, clicks[0]);
      RunPreservesInv(Click(g, clicks[0]), clicks[1..]);
    }
  }

  /** Every state reachable from a reset satisfies the invariant. */
  lemma ReachableInv(clicks: seq<Index>)
    ensures Inv(Run(Initial(), clicks))
  {
    InitialInv();
    RunPreservesInv(Initial(), clicks);
  }

  /** A finished game ignores all further clicks. */
  lemma {:induction false} FinishedGameFrozen(g: Game, clicks: seq<Index>)
    requires |g.board| == 9 && !g.active
    ensures Run(g, clicks) == g
    decreases |clicks|
  {
    if clicks != [] {
      FinishedGameFrozen(Click(g, clicks[0]), clicks[1..]);
    }
  }

  /** The page's global state, updated in place by the event handlers. */
  class Board {
    var gameBoard: array<Mark>
    var currentPlayer: Mark
    var isGameActive: bool

    /** The fields hold a reachable game state. */
    ghost predicate Valid()
      reads this, gameBoard
    {
      gameBoard.Length == 9 && Inv(State())
    }

    /** The abstract game state held by the fields. */
    ghost function State(): Game
      reads this, gameBoard
    {
      Game(gameBoard[..], currentPlayer, isGameActive)
    }

    /** Page load: an empty board, X to move, game active. */
    constructor ()
      ensures Valid() && fresh(gameBoard)
      ensures State() == Initial()
    {
      gameBoard := new Mark[9](_ => Empty);
      currentPlayer := X;
      isGameActive := true;
      new;
      assert gameBoard[..] == Initial().board;
      InitialInv();
    }

    /** `handleCellClick` for the cell with index `i`. */
    method HandleCellClick(i: Index)
      requires Valid()
      modifies this, gameBoard
      ensures Valid() && gameBoard == old(gameBoard)
      ensures State() == Click(old(State()), i)
    {
      ghost var g := State();
      if gameBoard[i] != Empty || !isGameActive {
        return;
      }
      gameBoard[i] := currentPlayer;
      assert gameBoard[..] == g.board[i := g.current];
      if CheckWinner(gameBoard[..]) {
        isGameActive := false;
      } else if Full(gameBoard[..]) {
        isGameActive := false;
      } else {
        currentPlayer := if currentPlayer == X then O else X;
      }
      ClickPreservesInv(g, i);
    }

    /** The reset button: a fresh empty board, game active, X to move. */
    method Reset()
      requires Valid()
      modifies this
      ensures Valid() && fresh(gameBoard)
      ensures State() == Initial()
    {
      gameBoard := new Mark[9](_ => Empty);
      isGameActive := true;
      currentPlayer := X;
      assert gameBoard[..] == Initial().board;
      InitialInv();
    }
  }
}
