/**
  The computer player of pages/5_game_omok.py (get_computer_move): take a
  winning cell for White, else block a winning cell of Black, else choose at
  random among the best-scored empty cells, the number of candidates set by
  the difficulty. The random draw is a parameter.
*/
module OmokAi {
  import opened Wrappers
  import opened OmokBoard
  import opened OmokEval

  /** m is on the board and placing a stone of `p` there makes five in a row through m. */
  ghost predicate Wins(g: Grid, m: Move, p: Player)
    requires IsGrid(g)
  {
    OnBoard(m.row, m.col) && CompletesFive(Place(g, m.row, m.col, Stone(p)), m.row, m.col, p)
  }

  /** m is the first empty cell in row-major order where `p` wins. */
  ghost predicate FirstWin(g: Grid, m: Move, p: Player)
    requires IsGrid(g)
  {
    IsEmptyCell(g, m) && Wins(g, m, p) &&
    forall m' :: IsEmptyCell(g, m') && Rank(m') < Rank(m) ==> !Wins(g, m', p)
  }

  /** Some empty cell wins for `p`. */
  ghost predicate CanWin(g: Grid, p: Player)
    requires IsGrid(g)
  {
    exists m :: IsEmptyCell(g, m) && Wins(g, m, p)
  }

  /** There is at most one first winning cell. */
  lemma FirstWinUnique(g: Grid, m1: Move, m2: Move, p: Player)
    requires IsGrid(g) && FirstWin(g, m1, p) && FirstWin(g, m2, p)
    ensures m1 == m2
  {
    if Rank(m1) == Rank(m2) {
      RankInjective(m1, m2);
    }
  }

  lemma RankInjective(m1: Move, m2: Move)
    requires OnBoard(m1.row, m1.col) && OnBoard(m2.row, m2.col) && Rank(m1) == Rank(m2)
    ensures m1 == m2
  {
  }

  /** In a list sorted by rank, every listed move of lower rank than moves[k] comes before it. */
  lemma EarlierIsListedBefore(moves: seq<Move>, k: int)
    requires 0 <= k < |moves|
    requires forall i, j :: 0 <= i < j < |moves| ==> Rank(moves[i]) < Rank(moves[j])
    ensures forall m :: m in moves && Rank(m) < Rank(moves[k]) ==> exists j :: 0 <= j < k && moves[j] == m
  {
    forall m | m in moves && Rank(m) < Rank(moves[k])
      ensures exists j :: 0 <= j < k && moves[j] == m
    {
      var j :| 0 <= j < |moves| && moves[j] == m;
    }
  }

  /**
    test_board = [r.copy() for r in board]; test_board[row][col] = x: a new
    board equal to `board` except at (row, col).
  */
  method CopyWith(board: array2<Cell>, row: int, col: int, x: Cell) returns (t: array2<Cell>)
    requires board.Length0 == N && board.Length1 == N && OnBoard(row, col)
    ensures fresh(t) && t.Length0 == N && t.Length1 == N
    ensures Cells(t) == Place(Cells(board), row, col, x)
  {
    t := new Cell[N, N]((i, j) reads board =>
      if i == row && j == col then x else if OnBoard(i, j) then board[i, j] else Empty);
    GridExtensionality(Cells(t), Place(Cells(board), row, col, x));
  }

  /** The test of one candidate: a copy of the board with `p` at m, checked by check_winner. */
  method WinsAt(board: array2<Cell>, m: Move, p: Player) returns (wins: bool)
    requires board.Length0 == N && board.Length1 == N && OnBoard(m.row, m.col)
    ensures wins == Wins(Cells(board), m, p)
  {
    var test := CopyWith(board, m.row, m.col, Stone(p));
    var w := CheckWinner(test, m.row, m.col);
    wins := w == Some(p);
  }

  /** The first listed empty cell that wins is the first winning cell in row-major order. */
  lemma FirstListedWin(g: Grid, i: int, p: Player)
    requires IsGrid(g) && 0 <= i < |Empties(g)|
    requires forall j :: 0 <= j < i ==> !Wins(g, Empties(g)[j], p)
    requires Wins(g, Empties(g)[i], p)
    ensures FirstWin(g, Empties(g)[i], p)
  {
    EmptiesExactly(g);
    EarlierIsListedBefore(Empties(g), i);
  }

  /** When no listed empty cell wins, no empty cell wins. */
  lemma NoListedWin(g: Grid, p: Player)
    requires IsGrid(g)
    requires forall j :: 0 <= j < |Empties(g)| ==> !Wins(g, Empties(g)[j], p)
    ensures !CanWin(g, p)
  {
    EmptiesExactly(g);
    forall m | IsEmptyCell(g, m)
      ensures !Wins(g, m, p)
    {
      assert m in Empties(g);
    }
  }

  /**
    The loop of the first two passes of get_computer_move: the index of the
    first move of the list where `p` wins according to check_winner, |moves|
    when there is none.
  */
  method FirstWinIndex(board: array2<Cell>, moves: seq<Move>, p: Player) returns (i: int)
    requires board.Length0 == N && board.Length1 == N
    requires forall j :: 0 <= j < |moves| ==> OnBoard(moves[j].row, moves[j].col)
    ensures 0 <= i <= |moves|
    ensures forall j :: 0 <= j < i ==> !Wins(Cells(board), moves[j], p)
    ensures i < |moves| ==> Wins(Cells(board), moves[i], p)
  {
    i := 0;
    while i < |moves|
      invariant 0 <= i <= |moves|
      invariant forall j :: 0 <= j < i ==> !Wins(Cells(board), moves[j], p)
    {
      var wins := WinsAt(board, moves[i], p);
      if wins {
        return;
      }
      i := i + 1;
    }
  }

  /**
    The first two passes of get_computer_move: try every empty cell in
    row-major order on a copy of the board and return the first where `p`
    wins.
  */
  method FirstWinning(board: array2<Cell>, moves: seq<Move>, p: Player) returns (found: Option<Move>)
    requires board.Length0 == N && board.Length1 == N
    requires moves == Empties(Cells(board))
    ensures found.Some? ==> FirstWin(Cells(board), found.value, p)
    ensures found.None? ==> !CanWin(Cells(board), p)
  {
    EmptiesListed(Cells(board));
    var i := FirstWinIndex(board, moves, p);
    if i < |moves| {
      FirstListedWin(Cells(board), i, p);
      found := Some(moves[i]);
    } else {
      NoListedWin(Cells(board), p);
      found := None;
    }
  }

  // ----------------------------------------------------------------------
  // Scoring and ranking the candidates

  /** A candidate cell with its evaluate_move score (in tenths). */
  datatype Scored = Scored(move: Move, score: int)

  /** The scored_moves list before sorting: each empty cell with its score. */
  ghost function Scores(g: Grid, moves: seq<Move>, difficulty: int): (s: seq<Scored>)
    requires IsGrid(g)
    ensures |s| == |moves|
    ensures forall i :: 0 <= i < |s| ==> s[i] == Scored(moves[i], MoveScore(g, moves[i].row, moves[i].col, difficulty))
  {
    seq(|moves|, i requires 0 <= i < |moves| => Scored(moves[i], MoveScore(g, moves[i].row, moves[i].col, difficulty)))
  }

  /** Best score first. */
  ghost predicate SortedDesc(s: seq<Scored>) {
    forall i, j :: 0 <= i < j < |s| ==> s[i].score >= s[j].score
  }

  /** The third pass: evaluate every candidate, in the order of the list. */
  method ScoreMoves(board: array2<Cell>, moves: seq<Move>, difficulty: int) returns (a: array<Scored>)
    requires board.Length0 == N && board.Length1 == N
    ensures fresh(a)
    ensures a[..] == Scores(Cells(board), moves, difficulty)
  {
    ghost var g := Cells(board);
    a := new Scored[|moves|];
    var i := 0;
    while i < |moves|
      invariant 0 <= i <= |moves|
      invariant forall j :: 0 <= j < i ==> a[j] == Scored(moves[j], MoveScore(g, moves[j].row, moves[j].col, difficulty))
    {
      var score := EvaluateMove(board, moves[i].row, moves[i].col, difficulty);
      a[i] := Scored(moves[i], score);
      i := i + 1;
    }
  }

  /**
    scored_moves.sort(key=score, reverse=True), by insertion: the array ends
    sorted best first and holds the same entries.
  */
  method SortByScore(a: array<Scored>)
    modifies a
    ensures SortedDesc(a[..])
    ensures multiset(a[..]) == multiset(old(a[..]))
  {
    var i := 0;
    while i < a.Length
      invariant 0 <= i <= a.Length
      invariant SortedDesc(a[..i])
      invariant multiset(a[..]) == multiset(old(a[..]))
    {
      InsertLast(a, i);
      i := i + 1;
    }
  }

  /** Moves a[i] left past every entry scoring strictly less, so that a[..i + 1] is sorted. */
  method InsertLast(a: array<Scored>, i: int)
    requires 0 <= i < a.Length && SortedDesc(a[..i])
    modifies a
    ensures SortedDesc(a[..i + 1])
    ensures multiset(a[..]) == multiset(old(a[..]))
  {
    var j := i;
    while j > 0 && a[j - 1].score < a[j].score
      invariant 0 <= j <= i
      invariant forall p, q :: 0 <= p < q <= i && p != j && q != j ==> a[p].score >= a[q].score
      invariant forall q :: j < q <= i ==> a[j].score > a[q].score
      invariant multiset(a[..]) == multiset(old(a[..]))
    {
      Swap(a, j - 1, j);
      j := j - 1;
    }
  }

  /** Exchanges two entries. */
  method Swap(a: array<Scored>, i: int, j: int)
    requires 0 <= i < j < a.Length
    modifies a
    ensures a[..] == old(a[..])[i := old(a[j])][j := old(a[i])]
    ensures multiset(a[..]) == multiset(old(a[..]))
  {
    a[i], a[j] := a[j], a[i];
  }

  function Max1(x: int): int {
    if x < 1 then 1 else x
  }

  /**
    top_moves_count: half, 30%, 20% or 10% of the candidates for difficulty
    up to 2, 4, 6 or 8 respectively (at least one), and three (or all, when
    fewer) above 8.
  */
  function TopCount(length: nat, difficulty: int): (k: int)
    ensures length >= 1 ==> 1 <= k <= length
    ensures k >= 1
  {
    if difficulty <= 2 then Max1(length * 5 / 10)
    else if difficulty <= 4 then Max1(length * 3 / 10)
    else if difficulty <= 6 then Max1(length * 2 / 10)
    else if difficulty <= 8 then Max1(length / 10)
    else Max1(if length < 3 then length else 3)
  }

  /** With at least thirty candidates a higher difficulty never widens the choice. */
  lemma TopCountNarrows(length: nat, d1: int, d2: int)
    requires length >= 30 && d1 <= d2
    ensures TopCount(length, d2) <= TopCount(length, d1)
  {
  }

  /** With ten candidates, difficulty 9 chooses among three of them but difficulty 8 takes only the best. */
  lemma TopCountWidensAtNine()
    ensures TopCount(10, 8) == 1 && TopCount(10, 9) == 3
  {
  }

  /** The candidates scoring strictly more than v. */
  ghost function Outscoring(g: Grid, moves: seq<Move>, difficulty: int, v: int): set<Move>
    requires IsGrid(g)
  {
    set m | m in moves && MoveScore(g, m.row, m.col, difficulty) > v
  }

  /** The moves of the first i entries: at most i of them. */
  lemma {:induction false} PrefixMoves(a: seq<Scored>, i: int)
    requires 0 <= i <= |a|
    ensures |set j | 0 <= j < i :: a[j].move| <= i
  {
    if i > 0 {
      PrefixMoves(a, i - 1);
      assert (set j | 0 <= j < i :: a[j].move) == (set j | 0 <= j < i - 1 :: a[j].move) + {a[i - 1].move};
    }
  }

  /**
    In a list sorted best first that holds the entries of `s`, fewer than
    i + 1 moves of `s` score strictly more than the entry at index i.
  */
  lemma SortedRankBound(a: seq<Scored>, s: seq<Scored>, i: int)
    requires 0 <= i < |a| && SortedDesc(a) && multiset(a) == multiset(s)
    ensures |set x | x in s && x.score > a[i].score :: x.move| <= i
  {
    var better := set x | x in s && x.score > a[i].score :: x.move;
    var prefix := set j | 0 <= j < i :: a[j].move;
    forall m | m in better
      ensures m in prefix
    {
      var x :| x in s && x.score > a[i].score && x.move == m;
      assert x in multiset(a);
      var j :| 0 <= j < |a| && a[j] == x;
    }
    PrefixMoves(a, i);
    SubsetSize(better, prefix);
  }

  /** The candidates outscoring v are the moves of the scored entries above v. */
  lemma OutscoringScored(g: Grid, moves: seq<Move>, difficulty: int, v: int)
    requires IsGrid(g)
    ensures Outscoring(g, moves, difficulty, v) ==
            set x | x in Scores(g, moves, difficulty) && x.score > v :: x.move
  {
    var s := Scores(g, moves, difficulty);
    forall m | m in Outscoring(g, moves, difficulty, v)
      ensures m in set x | x in s && x.score > v :: x.move
    {
      var k :| 0 <= k < |moves| && moves[k] == m;
      assert s[k].move == m && s[k] in s;
    }
  }

  lemma SubsetSize(x: set<Move>, y: set<Move>)
    requires x <= y
    ensures |x| <= |y|
  {
    assert y == x + (y - x);
  }

  /**
    The third pass: score every candidate, sort best first, and return entry
    pick % K of the sorted list, K being top_moves_count (random.choice over
    the top K).
  */
  method ChooseTop(board: array2<Cell>, moves: seq<Move>, difficulty: int, pick: nat) returns (m: Move)
    requires board.Length0 == N && board.Length1 == N && |moves| > 0
    ensures m in moves
    ensures |Outscoring(Cells(board), moves, difficulty, MoveScore(Cells(board), m.row, m.col, difficulty))|
              < TopCount(|moves|, difficulty)
  {
    ghost var g := Cells(board);
    var scored := ScoreMoves(board, moves, difficulty);
    SortByScore(scored);
    var k := TopCount(scored.Length, difficulty);
    var i := pick % k;
    m := scored[i].move;
    assert scored[i] in multiset(Scores(g, moves, difficulty));
    SortedRankBound(scored[..], Scores(g, moves, difficulty), i);
    OutscoringScored(g, moves, difficulty, scored[i].score);
  }

  /**
    get_computer_move: None when the board is full; otherwise the first
    (row-major) empty cell where White wins, else the first where Black would
    win, else one of the best-scored cells: fewer than TopCount candidates
    score strictly more than the one chosen. `pick` stands for the random
    draw. The board is only read.
  */
  method GetComputerMove(board: array2<Cell>, difficulty: int, pick: nat) returns (result: Option<Move>)
    requires board.Length0 == N && board.Length1 == N
    ensures result.None? <==> forall r, c :: OnBoard(r, c) ==> board[r, c] != Empty
    ensures result.Some? ==> IsEmptyCell(Cells(board), result.value)
    ensures CanWin(Cells(board), White) ==> result.Some? && FirstWin(Cells(board), result.value, White)
    ensures !CanWin(Cells(board), White) && CanWin(Cells(board), Black) ==>
              result.Some? && FirstWin(Cells(board), result.value, Black)
    ensures !CanWin(Cells(board), White) && !CanWin(Cells(board), Black) && result.Some? ==>
              var g := Cells(board);
              |Outscoring(g, Empties(g), difficulty, MoveScore(g, result.value.row, result.value.col, difficulty))|
                < TopCount(|Empties(g)|, difficulty)
  {
    ghost var g := Cells(board);
    var moves := EmptyMoves(board);
    FullBoard(g);
    if |moves| == 0 {
      return None;
    }
    var win := FirstWinning(board, moves, White);
    if win.Some? {
      return win;
    }
    var block := FirstWinning(board, moves, Black);
    if block.Some? {
      return block;
    }
    var m := ChooseTop(board, moves, difficulty, pick);
    return Some(m);
  }
}
