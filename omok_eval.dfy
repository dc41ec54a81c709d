/**
  Heuristic scoring of a candidate cell (evaluate_direction and evaluate_move
  of pages/5_game_omok.py).

  Scores are kept in tenths: the opponent's line scores are weighted by
  min(1.0, difficulty / 10) in the page, which is min(10, difficulty) tenths,
  so every score below is ten times the page's.
*/
module OmokEval {
  import opened Wrappers
  import opened OmokBoard

  /** Why one side scan of evaluate_direction stopped. */
  datatype Stop =
    | Edge       // the next cell is off the board
    | OpenEnd    // the next cell is empty
    | Opponent   // the next cell holds the other colour
    | Exhausted  // all four cells scanned hold the player's stones

  /** The line seen by evaluate_direction: stones in line with the cell, and open ends counted. */
  datatype Shape = Shape(consecutive: nat, openEnds: nat)

  /** The reason a scan stops at a cell that does not hold the player's stone. */
  function Classify(seen: Option<Cell>): Stop {
    match seen
    case None => Edge
    case Some(Empty) => OpenEnd
    case Some(Stone(_)) => Opponent
  }

  /** Why the side scan of `p` from (r, c) stopped. */
  function SideStop(g: Grid, r: int, c: int, d: Dir, p: Player, forward: bool): Stop
    requires IsGrid(g)
  {
    var n := Streak(g, r, c, d, p, forward, 1);
    if n == 4 then Exhausted else Classify(Look(g, r, c, d, Offset(forward, n + 1)))
  }

  /** The forward side is blocked when it stops at the edge or at an opponent stone. */
  predicate Blocks(stop: Stop) {
    stop == Edge || stop == Opponent
  }

  /**
    The shape evaluate_direction computes: the stones of `p` met on both sides,
    an open end for the forward side when it stops at an empty cell, and one
    for the backward side only when, in addition, the forward side was not
    blocked (by the edge or by an opponent stone).
  */
  function LineShape(g: Grid, r: int, c: int, d: Dir, p: Player): (s: Shape)
    requires IsGrid(g)
    ensures s.consecutive <= 8 && s.openEnds <= 2
    ensures Blocks(SideStop(g, r, c, d, p, true)) ==> s.openEnds == 0
    ensures s.openEnds == 2 <==> SideStop(g, r, c, d, p, true) == OpenEnd && SideStop(g, r, c, d, p, false) == OpenEnd
  {
    var ahead := SideStop(g, r, c, d, p, true);
    var behind := SideStop(g, r, c, d, p, false);
    var blocked := Blocks(ahead);
    Shape(Streak(g, r, c, d, p, true, 1) + Streak(g, r, c, d, p, false, 1),
          (if ahead == OpenEnd then 1 else 0) + (if behind == OpenEnd && !blocked then 1 else 0))
  }

  /** The score table of evaluate_direction. */
  function ShapeScore(s: Shape): (score: int)
    ensures score in {0, 1, 3, 5, 10, 15, 50, 200, 1000}
    ensures score == 0 <==> s.consecutive == 0
    ensures score == 1000 <==> s.consecutive >= 4
  {
    if s.consecutive >= 4 then 1000
    else if s.consecutive >= 3 then (if s.openEnds >= 2 then 200 else if s.openEnds >= 1 then 50 else 10)
    else if s.consecutive >= 2 then (if s.openEnds >= 2 then 50 else if s.openEnds >= 1 then 15 else 3)
    else if s.consecutive >= 1 then (if s.openEnds >= 2 then 15 else if s.openEnds >= 1 then 5 else 1)
    else 0
  }

  /** More stones in line, or more open ends, never lower the score. */
  lemma ShapeScoreMonotone(s: Shape, t: Shape)
    requires s.consecutive <= t.consecutive && s.openEnds <= t.openEnds
    ensures ShapeScore(s) <= ShapeScore(t)
  {
  }

  /**
    How a side scan ends: after meeting `p` at steps 1 .. i - 1, either all
    four steps were taken (i = 5) or the cell at step i does not hold `p`, and
    that cell gives the reason the scan stopped.
  */
  lemma ScanEnds(g: Grid, r: int, c: int, d: Dir, p: Player, forward: bool, i: int)
    requires IsGrid(g) && 1 <= i <= 5
    requires forall j :: 1 <= j < i ==> Look(g, r, c, d, Offset(forward, j)) == Some(Stone(p))
    requires i < 5 ==> Look(g, r, c, d, Offset(forward, i)) != Some(Stone(p))
    ensures Streak(g, r, c, d, p, forward, 1) == i - 1
    ensures SideStop(g, r, c, d, p, forward) ==
              if i == 5 then Exhausted else Classify(Look(g, r, c, d, Offset(forward, i)))
  {
    StreakEnds(g, r, c, d, p, forward, i);
  }

  /**
    The first loop of evaluate_direction: walk forward along `d` counting the
    stones of `player`; an empty cell is an open end, the edge or an opponent
    stone blocks the line.
  */
  method ScanAhead(board: array2<Cell>, row: int, col: int, d: Dir, player: Player)
    returns (consecutive: nat, openEnds: nat, blocked: bool)
    requires board.Length0 == N && board.Length1 == N
    ensures consecutive == Streak(Cells(board), row, col, d, player, true, 1)
    ensures blocked == Blocks(SideStop(Cells(board), row, col, d, player, true))
    ensures openEnds == if SideStop(Cells(board), row, col, d, player, true) == OpenEnd then 1 else 0
  {
    ghost var g := Cells(board);
    consecutive, openEnds, blocked := 0, 0, false;
    var i := 1;
    while i < 5
      invariant 1 <= i <= 5
      invariant consecutive == i - 1 && openEnds == 0 && !blocked
      invariant forall j :: 1 <= j < i ==> Look(g, row, col, d, Offset(true, j)) == Some(Stone(player))
    {
      var step := Offset(true, i);
      var seen := CellAt(board, row + step * d.dr, col + step * d.dc);
      LookIsCellAt(board, row, col, d, step);
      if seen != Some(Stone(player)) {
        // an empty cell is an open end; the edge or an opponent stone blocks
        openEnds, blocked := if seen == Some(Empty) then 1 else 0, seen != Some(Empty);
        break;
      }
      consecutive := consecutive + 1;
      i := i + 1;
    }
    ScanEnds(g, row, col, d, player, true, i);
  }

  /**
    The second loop of evaluate_direction: walk backward counting the stones
    of `player`; an empty cell adds an open end only when the forward side was
    not blocked.
  */
  method ScanBehind(board: array2<Cell>, row: int, col: int, d: Dir, player: Player, blocked: bool)
    returns (consecutive: nat, openEnds: nat)
    requires board.Length0 == N && board.Length1 == N
    ensures consecutive == Streak(Cells(board), row, col, d, player, false, 1)
    ensures openEnds == if SideStop(Cells(board), row, col, d, player, false) == OpenEnd && !blocked then 1 else 0
  {
    ghost var g := Cells(board);
    consecutive, openEnds := 0, 0;
    var i := 1;
    while i < 5
      invariant 1 <= i <= 5
      invariant consecutive == i - 1 && openEnds == 0
      invariant forall j :: 1 <= j < i ==> Look(g, row, col, d, Offset(false, j)) == Some(Stone(player))
    {
      var back := Offset(false, i);
      var seen := CellAt(board, row + back * d.dr, col + back * d.dc);
      LookIsCellAt(board, row, col, d, back);
      if seen != Some(Stone(player)) {
        // an empty cell is an open end unless the forward side was blocked
        openEnds := if seen == Some(Empty) && !blocked then 1 else 0;
        break;
      }
      consecutive := consecutive + 1;
      i := i + 1;
    }
    ScanEnds(g, row, col, d, player, false, i);
  }

  /**
    evaluate_direction: the score of the line through (row, col) along `d` for
    `player`, from the stones met on both sides and the open ends counted.
  */
  method EvaluateDirection(board: array2<Cell>, row: int, col: int, d: Dir, player: Player) returns (score: int)
    requires board.Length0 == N && board.Length1 == N
    ensures score == ShapeScore(LineShape(Cells(board), row, col, d, player))
  {
    var consecutive, openEnds, blocked := ScanAhead(board, row, col, d, player);
    var moreStones, moreOpen := ScanBehind(board, row, col, d, player, blocked);
    consecutive, openEnds := consecutive + moreStones, openEnds + moreOpen;
    assert Shape(consecutive, openEnds) == LineShape(Cells(board), row, col, d, player);

    if consecutive >= 4 {
      score := 1000;
    } else if consecutive >= 3 {
      score := if openEnds >= 2 then 200 else if openEnds >= 1 then 50 else 10;
    } else if consecutive >= 2 {
      score := if openEnds >= 2 then 50 else if openEnds >= 1 then 15 else 3;
    } else if consecutive >= 1 {
      score := if openEnds >= 2 then 15 else if openEnds >= 1 then 5 else 1;
    } else {
      score := 0;
    }
  }

  // ----------------------------------------------------------------------
  // evaluate_move

  /** The blocking weight min(1.0, difficulty / 10) of evaluate_move, in tenths. */
  function Blocking(difficulty: int): int {
    if difficulty < 10 then difficulty else 10
  }

  /** The score of one orientation in tenths: White's line at full weight, Black's at the blocking weight. */
  function DirectionScore(g: Grid, r: int, c: int, d: Dir, difficulty: int): (score: int)
    requires IsGrid(g)
    ensures score <= 20000
    ensures difficulty >= 0 ==> score >= 0
  {
    BlockingWeight(difficulty, ShapeScore(LineShape(g, r, c, d, Black)));
    10 * ShapeScore(LineShape(g, r, c, d, White)) + Blocking(difficulty) * ShapeScore(LineShape(g, r, c, d, Black))
  }

  /** The opponent's weighted line is at most ten times its score, and not negative for a non-negative difficulty. */
  lemma BlockingWeight(difficulty: int, s: int)
    requires 0 <= s
    ensures Blocking(difficulty) * s <= 10 * s
    ensures difficulty >= 0 ==> Blocking(difficulty) * s >= 0
  {
    WeightMonotone(Blocking(difficulty), 10, s);
    if difficulty >= 0 {
      WeightMonotone(0, Blocking(difficulty), s);
    }
  }

  /** The direction scores of the first k orientations, summed. */
  function DirectionsScore(g: Grid, r: int, c: int, difficulty: int, k: int): (score: int)
    requires IsGrid(g) && 0 <= k <= 4
    ensures score <= 20000 * k
    ensures difficulty >= 0 ==> score >= 0
  {
    if k == 0 then 0
    else DirectionsScore(g, r, c, difficulty, k - 1) + DirectionScore(g, r, c, Directions[k - 1], difficulty)
  }

  function Abs(x: int): nat {
    if x < 0 then -x else x
  }

  /** The early-game preference for the centre, (14 - Manhattan distance to (7, 7)) * 2, in tenths. */
  function CenterBonus(r: int, c: int): int {
    (14 - Abs(r - 7) - Abs(c - 7)) * 20
  }

  /** A stone at offset (dr, dc) from (r, c): within two rows and two columns, on the board, not (r, c) itself. */
  predicate NearbyStone(g: Grid, r: int, c: int, dr: int, dc: int)
    requires IsGrid(g)
  {
    -2 <= dr <= 2 && -2 <= dc <= 2 && (dr != 0 || dc != 0) && OnBoard(r + dr, c + dc) && g[r + dr][c + dc] != Empty
  }

  ghost predicate HasNearbyStone(g: Grid, r: int, c: int)
    requires IsGrid(g)
  {
    exists dr, dc :: NearbyStone(g, r, c, dr, dc)
  }

  /**
    The score evaluate_move gives (r, c), in tenths: the four direction
    scores; the centre bonus while fewer than ten stones are on the board;
    20 points for a stone nearby, otherwise a 50-point penalty once more than
    five stones are on the board.
  */
  ghost function MoveScore(g: Grid, r: int, c: int, difficulty: int): (score: int)
    requires IsGrid(g)
    ensures score <= 80000 + 280 + 200
    ensures difficulty >= 0 && OnBoard(r, c) ==> score >= -500
  {
    var total := StoneCount(g);
    DirectionsScore(g, r, c, difficulty, 4)
      + (if total < 10 then CenterBonus(r, c) else 0)
      + (if HasNearbyStone(g, r, c) then 200 else if total > 5 then -500 else 0)
  }

  /** total_stones of evaluate_move: the occupied cells, counted row by row. */
  method CountStones(board: array2<Cell>) returns (total: nat)
    requires board.Length0 == N && board.Length1 == N
    ensures total == StoneCount(Cells(board))
  {
    ghost var g := Cells(board);
    total := 0;
    var row := 0;
    while row < N
      invariant 0 <= row <= N
      invariant total == StonesUpTo(g, row, 0)
    {
      var col := 0;
      while col < N
        invariant 0 <= col <= N
        invariant total == StonesUpTo(g, row, col)
      {
        if board[row, col] != Empty {
          total := total + 1;
        }
        col := col + 1;
      }
      row := row + 1;
    }
  }

  /**
    The nearby-stone search of evaluate_move: the offsets within two rows and
    two columns, row by row, skipping (row, col) itself and stopping at the
    first on-board stone.
  */
  method FindNearby(board: array2<Cell>, row: int, col: int) returns (found: bool)
    requires board.Length0 == N && board.Length1 == N
    ensures found == HasNearbyStone(Cells(board), row, col)
  {
    ghost var g := Cells(board);
    found := false;
    var dr := -2;
    while dr < 3
      invariant -2 <= dr <= 3
      invariant !found
      invariant forall i, j :: i < dr ==> !NearbyStone(g, row, col, i, j)
    {
      var dc := -2;
      while dc < 3
        invariant -2 <= dc <= 3
        invariant !found
        invariant forall j :: j < dc ==> !NearbyStone(g, row, col, dr, j)
      {
        if dr != 0 || dc != 0 {
          var r, c := row + dr, col + dc;
          if 0 <= r < N && 0 <= c < N && board[r, c] != Empty {
            assert NearbyStone(g, row, col, dr, dc);
            found := true;
            break;
          }
        }
        dc := dc + 1;
      }
      if found {
        break;
      }
      dr := dr + 1;
    }
  }

  /**
    evaluate_move: the heuristic score of playing (row, col), in tenths. The
    board is only read.
  */
  method EvaluateMove(board: array2<Cell>, row: int, col: int, difficulty: int) returns (score: int)
    requires board.Length0 == N && board.Length1 == N
    ensures score == MoveScore(Cells(board), row, col, difficulty)
  {
    ghost var g := Cells(board);
    score := 0;
    var k := 0;
    while k < 4
      invariant 0 <= k <= 4
      invariant score == DirectionsScore(g, row, col, difficulty, k)
    {
      var white := EvaluateDirection(board, row, col, Directions[k], White);
      var black := EvaluateDirection(board, row, col, Directions[k], Black);
      score := score + 10 * white + Blocking(difficulty) * black;
      k := k + 1;
    }
    var total := CountStones(board);
    if total < 10 {
      score := score + CenterBonus(row, col);
    }
    var nearby := FindNearby(board, row, col);
    if nearby {
      score := score + 200;
    } else if total > 5 {
      score := score - 500;
    }
  }

  // ----------------------------------------------------------------------
  // Properties of the score

  /**
    A line scores 1000 exactly when placing the stone at (r, c) makes five in
    a row through it along that orientation: the heuristic's top line score
    and check_winner agree.
  */
  lemma WinningLine(g: Grid, r: int, c: int, k: int, p: Player)
    requires IsGrid(g) && OnBoard(r, c) && 0 <= k < 4
    ensures ShapeScore(LineShape(g, r, c, Directions[k], p)) == 1000 <==>
            exists s :: FiveThrough(Place(g, r, c, Stone(p)), r, c, Directions[k], s, p)
  {
    var d := Directions[k];
    var h := Place(g, r, c, Stone(p));
    StreakPlace(g, r, c, Stone(p), d, p, true, 1);
    StreakPlace(g, r, c, Stone(p), d, p, false, 1);
    LineCountFive(h, r, c, d, p);
  }

  /** Placing `p` at (r, c) wins exactly when one of its four line scores is 1000. */
  lemma WinningScore(g: Grid, r: int, c: int, p: Player)
    requires IsGrid(g) && OnBoard(r, c)
    ensures CompletesFive(Place(g, r, c, Stone(p)), r, c, p) <==>
            exists k :: 0 <= k < 4 && ShapeScore(LineShape(g, r, c, Directions[k], p)) == 1000
  {
    forall k | 0 <= k < 4 {
      WinningLine(g, r, c, k, p);
    }
  }

  /** One orientation's score, as a function of the difficulty. */
  lemma DirectionScoreMonotone(g: Grid, r: int, c: int, d: Dir, d1: int, d2: int)
    requires IsGrid(g) && d1 <= d2
    ensures DirectionScore(g, r, c, d, d1) <= DirectionScore(g, r, c, d, d2)
    ensures d1 >= 10 ==> DirectionScore(g, r, c, d, d1) == DirectionScore(g, r, c, d, d2)
  {
    var s := ShapeScore(LineShape(g, r, c, d, Black));
    WeightMonotone(Blocking(d1), Blocking(d2), s);
  }

  lemma WeightMonotone(a: int, b: int, s: int)
    requires a <= b && 0 <= s
    ensures a * s <= b * s
  {
  }

  /** A higher difficulty weighs the opponent's lines more, so no score decreases. */
  lemma {:induction false} DirectionsScoreMonotone(g: Grid, r: int, c: int, d1: int, d2: int, k: int)
    requires IsGrid(g) && 0 <= k <= 4 && d1 <= d2
    ensures DirectionsScore(g, r, c, d1, k) <= DirectionsScore(g, r, c, d2, k)
    ensures d1 >= 10 ==> DirectionsScore(g, r, c, d1, k) == DirectionsScore(g, r, c, d2, k)
  {
    if k > 0 {
      DirectionsScoreMonotone(g, r, c, d1, d2, k - 1);
      DirectionScoreMonotone(g, r, c, Directions[k - 1], d1, d2);
    }
  }

  /**
    The score of a cell never decreases with the difficulty, and every
    difficulty from 10 up scores like 10 (the blocking weight saturates).
  */
  lemma MoveScoreMonotone(g: Grid, r: int, c: int, d1: int, d2: int)
    requires IsGrid(g) && d1 <= d2
    ensures MoveScore(g, r, c, d1) <= MoveScore(g, r, c, d2)
    ensures d1 >= 10 ==> MoveScore(g, r, c, d1) == MoveScore(g, r, c, d2)
  {
    DirectionsScoreMonotone(g, r, c, d1, d2, 4);
  }

  /** On a blank board no line scores, so only the centre bonus counts. */
  lemma BlankBoardScore(g: Grid, r: int, c: int, difficulty: int)
    requires IsGrid(g) && IsBlank(g) && OnBoard(r, c)
    ensures MoveScore(g, r, c, difficulty) == CenterBonus(r, c)
  {
    BlankHasNoStones(g, N, 0);
    BlankDirections(g, r, c, difficulty, 4);
    assert !HasNearbyStone(g, r, c);
  }

  lemma {:induction false} BlankDirections(g: Grid, r: int, c: int, difficulty: int, k: int)
    requires IsGrid(g) && IsBlank(g) && 0 <= k <= 4
    ensures DirectionsScore(g, r, c, difficulty, k) == 0
  {
    if k > 0 {
      BlankDirections(g, r, c, difficulty, k - 1);
      BlankDirection(g, r, c, Directions[k - 1], difficulty);
    }
  }

  lemma BlankDirection(g: Grid, r: int, c: int, d: Dir, difficulty: int)
    requires IsGrid(g) && IsBlank(g)
    ensures DirectionScore(g, r, c, d, difficulty) == 0
  {
    BlankLine(g, r, c, d, White);
    BlankLine(g, r, c, d, Black);
  }

  /** No stone lies in line with any cell of a blank board. */
  lemma BlankLine(g: Grid, r: int, c: int, d: Dir, p: Player)
    requires IsGrid(g) && IsBlank(g)
    ensures LineShape(g, r, c, d, p).consecutive == 0
  {
    assert Look(g, r, c, d, Offset(true, 1)) != Some(Stone(p));
    assert Look(g, r, c, d, Offset(false, 1)) != Some(Stone(p));
  }

  /** On a blank board the centre (7, 7) scores strictly more than every other cell. */
  lemma BlankBoardCentre(g: Grid, r: int, c: int, difficulty: int)
    requires IsGrid(g) && IsBlank(g) && OnBoard(r, c) && (r != 7 || c != 7)
    ensures MoveScore(g, 7, 7, difficulty) > MoveScore(g, r, c, difficulty)
  {
    BlankBoardScore(g, 7, 7, difficulty);
    BlankBoardScore(g, r, c, difficulty);
  }
}
