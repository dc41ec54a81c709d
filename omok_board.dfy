/**
  Board and rules of the five-in-a-row game (pages/5_game_omok.py): the 15x15
  board, the speculative placement used by the AI, the list of empty cells in
  row-major order and the win check at the last placed stone.

  The board the page works on is a mutable grid, modelled as an `array2`.
  Every specification is stated over an immutable snapshot of it, a `Grid`.
*/
module OmokBoard {
  import opened Wrappers

  /** Side length of the board. */
  const N: int := 15

  datatype Player = Black | White
  datatype Cell = Empty | Stone(owner: Player)
  datatype Move = Move(row: int, col: int)
  /** A step of a line: one of the four orientations the engine scans. */
  datatype Dir = Dir(dr: int, dc: int)

  /** Horizontal, vertical, diagonal down-right, diagonal down-left, in that order. */
  const Directions: seq<Dir> := [Dir(0, 1), Dir(1, 0), Dir(1, 1), Dir(1, -1)]

  type Grid = seq<seq<Cell>>

  predicate IsGrid(g: Grid) {
    |g| == N && forall r :: 0 <= r < N ==> |g[r]| == N
  }

  predicate OnBoard(r: int, c: int) {
    0 <= r < N && 0 <= c < N
  }

  /** Every cell of the board is empty. */
  ghost predicate IsBlank(g: Grid)
    requires IsGrid(g)
  {
    forall r, c :: OnBoard(r, c) ==> g[r][c] == Empty
  }

  predicate IsEmptyCell(g: Grid, m: Move)
    requires IsGrid(g)
  {
    OnBoard(m.row, m.col) && g[m.row][m.col] == Empty
  }

  /** Position of a cell in row-major order. */
  function Rank(m: Move): int {
    m.row * N + m.col
  }

  /** The snapshot of a board array. */
  ghost function Cells(b: array2<Cell>): (g: Grid)
    reads b
    requires b.Length0 == N && b.Length1 == N
    ensures IsGrid(g)
    ensures forall r, c :: OnBoard(r, c) ==> g[r][c] == b[r, c]
  {
    seq(N, r requires 0 <= r < N reads b => seq(N, c requires 0 <= c < N reads b => b[r, c]))
  }

  /** The grid with one cell overwritten: the speculative placement of the AI. */
  function Place(g: Grid, r: int, c: int, x: Cell): (h: Grid)
    requires IsGrid(g) && OnBoard(r, c)
    ensures IsGrid(h)
    ensures h[r][c] == x
    ensures forall i, j :: OnBoard(i, j) && (i != r || j != c) ==> h[i][j] == g[i][j]
  {
    g[r := g[r][c := x]]
  }

  lemma GridExtensionality(g: Grid, h: Grid)
    requires IsGrid(g) && IsGrid(h)
    requires forall i, j :: OnBoard(i, j) ==> g[i][j] == h[i][j]
    ensures g == h
  {
    forall i | 0 <= i < N
      ensures g[i] == h[i]
    {
      assert forall j :: 0 <= j < N ==> g[i][j] == h[i][j];
    }
  }

  // ----------------------------------------------------------------------
  // Lines through a cell

  /** The cell `i` steps from (r, c) along `d` (negative `i`: against `d`), or None off the board. */
  function Look(g: Grid, r: int, c: int, d: Dir, i: int): Option<Cell>
    requires IsGrid(g)
  {
    var rr := r + i * d.dr;
    var cc := c + i * d.dc;
    if OnBoard(rr, cc) then Some(g[rr][cc]) else None
  }

  /** The cell at (r, c) of the board, or None when (r, c) is off the board: the bounds test every scan makes before indexing. */
  function CellAt(board: array2<Cell>, r: int, c: int): Option<Cell>
    reads board
    requires board.Length0 == N && board.Length1 == N
  {
    if r < 0 || r >= N || c < 0 || c >= N then None else Some(board[r, c])
  }

  /** Looking along a line of the snapshot is reading the board at the same coordinates. */
  lemma LookIsCellAt(board: array2<Cell>, r: int, c: int, d: Dir, i: int)
    requires board.Length0 == N && board.Length1 == N
    ensures Look(Cells(board), r, c, d, i) == CellAt(board, r + i * d.dr, c + i * d.dc)
  {
  }

  /** Signed step index of a scan: forward scans look at +i, backward scans at -i. */
  function Offset(forward: bool, i: int): int {
    if forward then i else -i
  }

  /**
    Number of consecutive stones of `p` met at steps i, i+1, ..., 4 of a scan,
    the scan stopping at the edge or at the first cell not holding `p`.
  */
  function Streak(g: Grid, r: int, c: int, d: Dir, p: Player, forward: bool, i: int): (n: nat)
    requires IsGrid(g) && 1 <= i <= 5
    ensures n <= 5 - i
    decreases 5 - i
  {
    if i == 5 then 0
    else if Look(g, r, c, d, Offset(forward, i)) == Some(Stone(p)) then 1 + Streak(g, r, c, d, p, forward, i + 1)
    else 0
  }

  /** A streak reaches length m exactly when the m cells it starts with all hold `p`. */
  lemma {:induction false} StreakAtLeast(g: Grid, r: int, c: int, d: Dir, p: Player, forward: bool, i: int, m: nat)
    requires IsGrid(g) && 1 <= i && i + m <= 5
    ensures Streak(g, r, c, d, p, forward, i) >= m <==>
            forall j :: i <= j < i + m ==> Look(g, r, c, d, Offset(forward, j)) == Some(Stone(p))
    decreases m
  {
    if m > 0 {
      StreakAtLeast(g, r, c, d, p, forward, i + 1, m - 1);
      if Look(g, r, c, d, Offset(forward, i)) != Some(Stone(p)) {
        assert !(forall j :: i <= j < i + m ==> Look(g, r, c, d, Offset(forward, j)) == Some(Stone(p)));
      }
    }
  }

  /** Placing a stone at (r, c) changes nothing seen from (r, c) at a non-zero step. */
  lemma LookPlace(g: Grid, r: int, c: int, x: Cell, d: Dir, j: int)
    requires IsGrid(g) && OnBoard(r, c) && d in Directions && j != 0
    ensures Look(Place(g, r, c, x), r, c, d, j) == Look(g, r, c, d, j)
  {
    assert d.dr == 1 || d.dc == 1;
  }

  /** The streaks around (r, c) are the same before and after a stone is placed at (r, c). */
  lemma {:induction false} StreakPlace(g: Grid, r: int, c: int, x: Cell, d: Dir, p: Player, forward: bool, i: int)
    requires IsGrid(g) && OnBoard(r, c) && d in Directions && 1 <= i <= 5
    ensures Streak(Place(g, r, c, x), r, c, d, p, forward, i) == Streak(g, r, c, d, p, forward, i)
    decreases 5 - i
  {
    if i < 5 {
      LookPlace(g, r, c, x, d, Offset(forward, i));
      StreakPlace(g, r, c, x, d, p, forward, i + 1);
    }
  }

  /** Five stones of `p` in a row on the line through (r, c) along `d`, covering (r, c); `s` of them lie behind it. */
  ghost predicate FiveThrough(g: Grid, r: int, c: int, d: Dir, s: int, p: Player)
    requires IsGrid(g)
  {
    0 <= s <= 4 && forall j :: -s <= j <= 4 - s ==> Look(g, r, c, d, j) == Some(Stone(p))
  }

  /** The stone at (r, c) is part of five or more in a row of `p` along one of the four orientations. */
  ghost predicate CompletesFive(g: Grid, r: int, c: int, p: Player)
    requires IsGrid(g)
  {
    exists k, s :: 0 <= k < 4 && FiveThrough(g, r, c, Directions[k], s, p)
  }

  /** The count of check_winner along one orientation: the stone itself plus both streaks. */
  function LineCount(g: Grid, r: int, c: int, d: Dir, p: Player): nat
    requires IsGrid(g)
  {
    1 + Streak(g, r, c, d, p, true, 1) + Streak(g, r, c, d, p, false, 1)
  }

  /** A count of at least five along `d` is the same as five in a row through (r, c) along `d`. */
  lemma LineCountFive(g: Grid, r: int, c: int, d: Dir, p: Player)
    requires IsGrid(g) && OnBoard(r, c) && g[r][c] == Stone(p)
    ensures LineCount(g, r, c, d, p) >= 5 <==> exists s :: FiveThrough(g, r, c, d, s, p)
  {
    var a := Streak(g, r, c, d, p, true, 1);
    var b := Streak(g, r, c, d, p, false, 1);
    assert Look(g, r, c, d, 0) == Some(Stone(p));
    if a + b + 1 >= 5 {
      StreakAtLeast(g, r, c, d, p, true, 1, 4 - b);
      StreakAtLeast(g, r, c, d, p, false, 1, b);
      forall j: int | -b <= j <= 4 - b
        ensures Look(g, r, c, d, j) == Some(Stone(p))
      {
        if j < 0 {
          assert Offset(false, -j) == j;
        } else if j > 0 {
          assert Offset(true, j) == j;
        }
      }
      assert FiveThrough(g, r, c, d, b, p);
    }
    if s :| FiveThrough(g, r, c, d, s, p) {
      StreakAtLeast(g, r, c, d, p, true, 1, 4 - s);
      StreakAtLeast(g, r, c, d, p, false, 1, s);
      forall j | 1 <= j < 1 + s
        ensures Look(g, r, c, d, Offset(false, j)) == Some(Stone(p))
      {
        assert Look(g, r, c, d, -j) == Some(Stone(p));
      }
      forall j | 1 <= j < 5 - s
        ensures Look(g, r, c, d, Offset(true, j)) == Some(Stone(p))
      {
        assert Look(g, r, c, d, j) == Some(Stone(p));
      }
    }
  }

  /**
    A scan that met `p` at steps 1 .. i - 1 and then stopped, at step i
    (i < 5) on a cell not holding `p` or because all four steps were taken,
    has met exactly the streak.
  */
  lemma StreakEnds(g: Grid, r: int, c: int, d: Dir, p: Player, forward: bool, i: int)
    requires IsGrid(g) && 1 <= i <= 5
    requires forall j :: 1 <= j < i ==> Look(g, r, c, d, Offset(forward, j)) == Some(Stone(p))
    requires i < 5 ==> Look(g, r, c, d, Offset(forward, i)) != Some(Stone(p))
    ensures Streak(g, r, c, d, p, forward, 1) == i - 1
  {
    StreakAtLeast(g, r, c, d, p, forward, 1, i - 1);
    if i < 5 {
      StreakAtLeast(g, r, c, d, p, forward, 1, i);
    }
  }

  /**
    One of the two scans of check_winner: the number of stones of `p` met
    walking from (row, col) along `d` (or against it), at most four steps,
    stopping at the edge or at the first cell not holding `p`.
  */
  method ScanStreak(board: array2<Cell>, row: int, col: int, d: Dir, p: Player, forward: bool) returns (n: nat)
    requires board.Length0 == N && board.Length1 == N
    ensures n == Streak(Cells(board), row, col, d, p, forward, 1)
  {
    ghost var g := Cells(board);
    n := 0;
    var i := 1;
    while i < 5
      invariant 1 <= i <= 5 && n == i - 1
      invariant forall j :: 1 <= j < i ==> Look(g, row, col, d, Offset(forward, j)) == Some(Stone(p))
    {
      var step := Offset(forward, i);
      LookIsCellAt(board, row, col, d, step);
      if CellAt(board, row + step * d.dr, col + step * d.dc) != Some(Stone(p)) {
        break;
      }
      n := n + 1;
      i := i + 1;
    }
    StreakEnds(g, row, col, d, p, forward, i);
  }

  /**
    check_winner: the occupant of (row, col) when its stone is part of five or
    more in a row along one of the four orientations, None otherwise (in
    particular None for an empty cell). Each side is scanned at most four
    steps; only in-board cells are read and the board is not written.
  */
  method CheckWinner(board: array2<Cell>, row: int, col: int) returns (w: Option<Player>)
    requires board.Length0 == N && board.Length1 == N && OnBoard(row, col)
    ensures board[row, col] == Empty ==> w == None
    ensures w.Some? <==> board[row, col].Stone? && CompletesFive(Cells(board), row, col, board[row, col].owner)
    ensures w.Some? ==> board[row, col] == Stone(w.value)
  {
    ghost var g := Cells(board);
    var cell := board[row, col];
    if cell == Empty {
      return None;
    }
    var player := cell.owner;
    var k := 0;
    while k < 4
      invariant 0 <= k <= 4
      invariant forall k', s :: 0 <= k' < k ==> !FiveThrough(g, row, col, Directions[k'], s, player)
    {
      var d := Directions[k];
      var ahead := ScanStreak(board, row, col, d, player, true);
      var behind := ScanStreak(board, row, col, d, player, false);
      var count := 1 + ahead + behind;
      LineCountFive(g, row, col, d, player);
      if count >= 5 {
        return Some(player);
      }
      k := k + 1;
    }
    return None;
  }

  // ----------------------------------------------------------------------
  // Empty cells and stones, in row-major order

  predicate UpToValid(row: int, col: int) {
    (0 <= row < N && 0 <= col <= N) || (row == N && col == 0)
  }

  /** The empty cells before (row, col) in row-major order, in that order. */
  function EmptiesUpTo(g: Grid, row: int, col: int): seq<Move>
    requires IsGrid(g) && UpToValid(row, col)
    decreases row, col
  {
    if col == 0 then (if row == 0 then [] else EmptiesUpTo(g, row - 1, N))
    else EmptiesUpTo(g, row, col - 1) + (if g[row][col - 1] == Empty then [Move(row, col - 1)] else [])
  }

  /** available_moves of get_computer_move: every empty cell, in row-major order. */
  function Empties(g: Grid): seq<Move>
    requires IsGrid(g)
  {
    EmptiesUpTo(g, N, 0)
  }

  /** Number of stones before (row, col) in row-major order. */
  function StonesUpTo(g: Grid, row: int, col: int): nat
    requires IsGrid(g) && UpToValid(row, col)
    decreases row, col
  {
    if col == 0 then (if row == 0 then 0 else StonesUpTo(g, row - 1, N))
    else StonesUpTo(g, row, col - 1) + (if g[row][col - 1] != Empty then 1 else 0)
  }

  /** total_stones of evaluate_move: the number of occupied cells. */
  function StoneCount(g: Grid): nat
    requires IsGrid(g)
  {
    StonesUpTo(g, N, 0)
  }

  /** A blank board holds no stones. */
  lemma {:induction false} BlankHasNoStones(g: Grid, row: int, col: int)
    requires IsGrid(g) && IsBlank(g) && UpToValid(row, col)
    ensures StonesUpTo(g, row, col) == 0
    decreases row, col
  {
    if col == 0 {
      if row > 0 { BlankHasNoStones(g, row - 1, N); }
    } else {
      BlankHasNoStones(g, row, col - 1);
    }
  }

  /** Every cell the prefix lists is empty and of lower rank. */
  lemma {:induction false} EmptiesUpToSound(g: Grid, row: int, col: int)
    requires IsGrid(g) && UpToValid(row, col)
    ensures forall m :: m in EmptiesUpTo(g, row, col) ==> IsEmptyCell(g, m) && Rank(m) < row * N + col
    decreases row, col
  {
    if col == 0 {
      if row > 0 { EmptiesUpToSound(g, row - 1, N); }
    } else {
      EmptiesUpToSound(g, row, col - 1);
    }
  }

  /** Every empty cell of lower rank is listed by the prefix. */
  lemma {:induction false} EmptiesUpToComplete(g: Grid, row: int, col: int)
    requires IsGrid(g) && UpToValid(row, col)
    ensures forall m :: IsEmptyCell(g, m) && Rank(m) < row * N + col ==> m in EmptiesUpTo(g, row, col)
    decreases row, col
  {
    if col == 0 {
      if row > 0 { EmptiesUpToComplete(g, row - 1, N); }
    } else {
      EmptiesUpToComplete(g, row, col - 1);
    }
  }

  /** The prefix is in strictly increasing row-major order. */
  lemma {:induction false} EmptiesUpToSorted(g: Grid, row: int, col: int)
    requires IsGrid(g) && UpToValid(row, col)
    ensures forall i, j :: 0 <= i < j < |EmptiesUpTo(g, row, col)| ==>
              Rank(EmptiesUpTo(g, row, col)[i]) < Rank(EmptiesUpTo(g, row, col)[j])
    decreases row, col
  {
    if col == 0 {
      if row > 0 { EmptiesUpToSorted(g, row - 1, N); }
    } else {
      EmptiesUpToSorted(g, row, col - 1);
      EmptiesUpToSound(g, row, col - 1);
      var prev := EmptiesUpTo(g, row, col - 1);
      forall i | 0 <= i < |prev| ensures Rank(prev[i]) < row * N + col - 1 {
        assert prev[i] in prev;
      }
    }
  }

  /** Every entry of the list is an empty cell of the board. */
  lemma EmptiesListed(g: Grid)
    requires IsGrid(g)
    ensures forall i :: 0 <= i < |Empties(g)| ==> IsEmptyCell(g, Empties(g)[i])
  {
    EmptiesUpToSound(g, N, 0);
  }

  /** available_moves holds exactly the empty cells, each once, in row-major order. */
  lemma EmptiesExactly(g: Grid)
    requires IsGrid(g)
    ensures forall m :: m in Empties(g) <==> IsEmptyCell(g, m)
    ensures forall i, j :: 0 <= i < j < |Empties(g)| ==> Rank(Empties(g)[i]) < Rank(Empties(g)[j])
  {
    EmptiesUpToSound(g, N, 0);
    EmptiesUpToComplete(g, N, 0);
    EmptiesUpToSorted(g, N, 0);
  }

  /** Every cell is either a stone or listed among the empty cells. */
  lemma {:induction false} StonesPlusEmpties(g: Grid, row: int, col: int)
    requires IsGrid(g) && UpToValid(row, col)
    ensures StonesUpTo(g, row, col) + |EmptiesUpTo(g, row, col)| == row * N + col
    decreases row, col
  {
    if col == 0 {
      if row > 0 { StonesPlusEmpties(g, row - 1, N); }
    } else {
      StonesPlusEmpties(g, row, col - 1);
    }
  }

  /** The board is full (no move is available) exactly when it holds 225 stones. */
  lemma FullBoard(g: Grid)
    requires IsGrid(g)
    ensures StoneCount(g) + |Empties(g)| == N * N
    ensures Empties(g) == [] <==> StoneCount(g) == N * N
    ensures Empties(g) == [] <==> forall r, c :: OnBoard(r, c) ==> g[r][c] != Empty
  {
    StonesPlusEmpties(g, N, 0);
    EmptiesExactly(g);
    if Empties(g) != [] {
      assert IsEmptyCell(g, Empties(g)[0]);
    }
    forall r, c | OnBoard(r, c) && g[r][c] == Empty
      ensures Move(r, c) in Empties(g)
    {
      assert IsEmptyCell(g, Move(r, c));
    }
  }

  /**
    The list comprehension that opens get_computer_move: the empty cells of
    the board in row-major order.
  */
  method EmptyMoves(board: array2<Cell>) returns (moves: seq<Move>)
    requires board.Length0 == N && board.Length1 == N
    ensures moves == Empties(Cells(board))
    ensures forall m :: m in moves <==> OnBoard(m.row, m.col) && board[m.row, m.col] == Empty
    ensures forall i, j :: 0 <= i < j < |moves| ==> Rank(moves[i]) < Rank(moves[j])
  {
    ghost var g := Cells(board);
    moves := [];
    var row := 0;
    while row < N
      invariant 0 <= row <= N
      invariant moves == EmptiesUpTo(g, row, 0)
    {
      var col := 0;
      while col < N
        invariant 0 <= col <= N
        invariant moves == EmptiesUpTo(g, row, col)
      {
        if board[row, col] == Empty {
          moves := moves + [Move(row, col)];
        }
        col := col + 1;
      }
      row := row + 1;
    }
    EmptiesExactly(g);
  }
}
