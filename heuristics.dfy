/**
 * The estimates h0, h1 and h2 of searcher.py: how many more moves a node needs to
 * reach the goal, as the informed searchers rank nodes.
 */
module Heuristics {
  import opened Boards
  import opened States

  /** The tiles that belong in each row and in each column of the goal grid. */
  const ROW_DIGITS: seq<string> := ["012", "345", "678"]
  const COL_DIGITS: seq<string> := ["036", "147", "258"]

  /** Cell (r, c) holds a tile (the blank included) that belongs to another row or another column. */
  predicate OutOfLine(board: BoardString, r: int, c: int)
    requires 0 <= r < 3 && 0 <= c < 3
  {
    board[3 * r + c] !in ROW_DIGITS[r] || board[3 * r + c] !in COL_DIGITS[c]
  }

  /** The distinct tiles h2 collects: every tile outside its goal row or goal column. */
  function OutOfLineTiles(board: BoardString): set<char> {
    set r, c | 0 <= r < 3 && 0 <= c < 3 && OutOfLine(board, r, c) :: board[3 * r + c]
  }

  /** Cell k does not hold the goal's tile (the blank included). */
  predicate Differs(board: BoardString, k: nat)
    requires k < |board|
  {
    board[k] != GOAL_DIGITS[k]
  }

  /** How many of the first n cells differ from the goal. */
  function CountDiffers(board: BoardString, n: nat): nat
    requires n <= |board|
  {
    if n == 0 then 0 else CountDiffers(board, n - 1) + (if Differs(board, n - 1) then 1 else 0)
  }

  /** The tiles of the first n cells that differ from the goal. */
  function DifferingTiles(board: BoardString, n: nat): set<char>
    requires n <= |board|
  {
    set k | 0 <= k < n && Differs(board, k) :: board[k]
  }

  /** A tile is in line with cell (r, c) both ways exactly when it is the goal's tile there. */
  lemma InLine(r: int, c: int, d: char)
    requires 0 <= r < 3 && 0 <= c < 3
    ensures (d in ROW_DIGITS[r] && d in COL_DIGITS[c]) <==> d == GOAL_DIGITS[3 * r + c]
  {
    if r == 0 {
    } else if r == 1 {
    } else {
    }
  }

  /** Cells hold distinct tiles, so there are as many differing tiles as differing cells. */
  lemma {:induction false} DifferingCount(board: BoardString, n: nat)
    requires n <= |board|
    ensures |DifferingTiles(board, n)| == CountDiffers(board, n)
  {
    if n > 0 {
      DifferingCount(board, n - 1);
      var prev, cur := DifferingTiles(board, n - 1), DifferingTiles(board, n);
      var x := board[n - 1];
      forall k | 0 <= k < n - 1 ensures board[k] != x {
        DistinctCells(board, k, n - 1);
      }
      assert x !in prev;
      if Differs(board, n - 1) {
        assert cur == prev + {x};
      } else {
        assert cur == prev;
      }
    }
  }

  /** The tiles out of line are the tiles out of place. */
  lemma OutOfLineDiffering(board: BoardString)
    ensures OutOfLineTiles(board) == DifferingTiles(board, 9)
  {
    forall x | x in DifferingTiles(board, 9) ensures x in OutOfLineTiles(board) {
      var k :| 0 <= k < 9 && Differs(board, k) && board[k] == x;
      var r, c := k / 3, k % 3;
      assert k == 3 * r + c;
      InLine(r, c, x);
      assert OutOfLine(board, r, c);
    }
    forall x | x in OutOfLineTiles(board) ensures x in DifferingTiles(board, 9) {
      var r, c :| 0 <= r < 3 && 0 <= c < 3 && OutOfLine(board, r, c) && board[3 * r + c] == x;
      InLine(r, c, x);
      assert Differs(board, 3 * r + c);
    }
  }

  /**
   * h2's count ranges over 0..9; it is 0 exactly on the goal board, and at least 2
   * elsewhere, as a misplaced tile displaces the tile of its home cell.
   */
  lemma OutOfLineBounds(board: BoardString)
    ensures |OutOfLineTiles(board)| <= 9
    ensures |OutOfLineTiles(board)| == 0 <==> board == GOAL_DIGITS
    ensures board != GOAL_DIGITS ==> |OutOfLineTiles(board)| >= 2
  {
    OutOfLineDiffering(board);
    DifferingCount(board, 9);
    NotGoalDiffers(board);
  }

  lemma {:induction false} CountDiffersBound(board: BoardString, n: nat)
    requires n <= |board|
    ensures CountDiffers(board, n) <= n
    ensures CountDiffers(board, n) == 0 <==> forall k :: 0 <= k < n ==> !Differs(board, k)
  {
    if n > 0 {
      CountDiffersBound(board, n - 1);
    }
  }

  /** Two different cells that both differ from the goal count twice. */
  lemma {:induction false} CountDiffersTwo(board: BoardString, n: nat, i: nat, j: nat)
    requires i < j < n <= |board| && Differs(board, i) && Differs(board, j)
    ensures CountDiffers(board, n) >= 2
  {
    if j < n - 1 {
      CountDiffersTwo(board, n - 1, i, j);
    } else {
      MoreDiffers(board, n - 1, i);
    }
  }

  lemma {:induction false} MoreDiffers(board: BoardString, n: nat, i: nat)
    requires i < n <= |board| && Differs(board, i)
    ensures CountDiffers(board, n) >= 1
  {
    if i < n - 1 {
      MoreDiffers(board, n - 1, i);
    }
  }

  /** A board other than the goal has at least two cells out of place: a tile and the one on its home cell. */
  lemma NotGoalDiffers(board: BoardString)
    ensures CountDiffers(board, 9) <= 9
    ensures CountDiffers(board, 9) == 0 <==> board == GOAL_DIGITS
    ensures board != GOAL_DIGITS ==> CountDiffers(board, 9) >= 2
  {
    CountDiffersBound(board, 9);
    if board != GOAL_DIGITS {
      var k :| 0 <= k < 9 && board[k] != GOAL_DIGITS[k];
      var d := board[k];
      CellsAreDigits(board, k);
      var home := IndexOf(GOAL_DIGITS, d);
      assert home != k;
      if home < k {
        DistinctCells(board, home, k);
        CountDiffersTwo(board, 9, home, k);
      } else {
        DistinctCells(board, k, home);
        CountDiffersTwo(board, 9, k, home);
      }
    }
  }

  /** Cells other than the blank's differ from the goal exactly when they are misplaced; the blank's cell differs unless it is cell 0. */
  lemma {:induction false} DiffersMisplaced(board: BoardString, n: nat, blank: nat)
    requires n <= |board| && blank < |board| && board[blank] == '0'
    ensures CountDiffers(board, n) == CountMisplaced(board, n) + (if 0 < blank < n then 1 else 0)
  {
    if n > 0 {
      DiffersMisplaced(board, n - 1, blank);
      var k := n - 1;
      if k < blank {
        DistinctCells(board, k, blank);
      } else if blank < k {
        DistinctCells(board, blank, k);
      }
    }
  }

  /** h0: no estimate at all. */
  function H0(s: State): (h: int)
    ensures h == 0
  {
    0
  }

  /** h1: the misplaced tiles of the node's board. */
  method H1(s: State) returns (h: int)
    ensures h == CountMisplaced(s.board, 9)
    ensures 0 <= h <= 8
    ensures h == 0 <==> IsGoal(s)
  {
    var b := new Board(s.board);
    h := b.NumMisplaced();
  }

  /** One check of h2: the tile is appended when it is outside `line` and not yet collected. */
  function Collect(count: seq<char>, tile: char, line: string): seq<char> {
    if tile !in line && tile !in count then count + [tile] else count
  }

  /** The first three checks of iteration i: the cells of column i against their rows' digits. */
  function ColumnByRows(tiles: seq<seq<char>>, count: seq<char>, i: int): seq<char>
    requires |tiles| == 3 && (forall r :: 0 <= r < 3 ==> |tiles[r]| == 3) && 0 <= i < 3
  {
    var c1 := Collect(count, tiles[0][i], ROW_DIGITS[0]);
    var c2 := Collect(c1, tiles[1][i], ROW_DIGITS[1]);
    Collect(c2, tiles[2][i], ROW_DIGITS[2])
  }

  /** The last three checks of iteration i: the cells of row i against their columns' digits. */
  function RowByColumns(tiles: seq<seq<char>>, count: seq<char>, i: int): seq<char>
    requires |tiles| == 3 && (forall r :: 0 <= r < 3 ==> |tiles[r]| == 3) && 0 <= i < 3
  {
    var c1 := Collect(count, tiles[i][0], COL_DIGITS[0]);
    var c2 := Collect(c1, tiles[i][1], COL_DIGITS[1]);
    Collect(c2, tiles[i][2], COL_DIGITS[2])
  }

  /** The six checks of iteration i of h2's loop. */
  function Round(tiles: seq<seq<char>>, count: seq<char>, i: int): seq<char>
    requires |tiles| == 3 && (forall r :: 0 <= r < 3 ==> |tiles[r]| == 3) && 0 <= i < 3
  {
    RowByColumns(tiles, ColumnByRows(tiles, count, i), i)
  }

  /** The list h2 holds after its first n iterations. */
  function Collected(tiles: seq<seq<char>>, n: int): seq<char>
    requires |tiles| == 3 && (forall r :: 0 <= r < 3 ==> |tiles[r]| == 3) && 0 <= n <= 3
  {
    if n == 0 then [] else Round(tiles, Collected(tiles, n - 1), n - 1)
  }

  /**
   * h2: collects, without repeats, every tile outside its goal row (rows checked cell
   * by cell) or its goal column, and answers one less than their number.
   */
  method H2(s: State) returns (h: int)
    ensures h == |OutOfLineTiles(s.board)| - 1
    ensures -1 <= h <= 8
    ensures h == -1 <==> IsGoal(s)
    ensures !IsGoal(s) ==> h >= 1
  {
    var tiles := Rows(s.board);
    var count: seq<char> := [];
    for i := 0 to 3
      invariant count == Collected(tiles, i)
    {
      count := Check(count, tiles[0][i], "012");
      count := Check(count, tiles[1][i], "345");
      count := Check(count, tiles[2][i], "678");
      count := Check(count, tiles[i][0], "036");
      count := Check(count, tiles[i][1], "147");
      count := Check(count, tiles[i][2], "258");
    }
    CollectedTiles(s.board);
    OutOfLineBounds(s.board);
    h := |count| - 1;
  }

  /** One check of h2: a tile outside the goal line is counted, unless it already was. */
  method Check(count: seq<char>, tile: char, line: string) returns (c: seq<char>)
    ensures c == Collect(count, tile, line)
  {
    c := count;
    if tile !in line {
      if tile !in count {
        c := count + [tile];
      }
    }
  }

  /** h2 collects exactly the out-of-line tiles, each once. */
  lemma CollectedTiles(board: BoardString)
    ensures |Collected(Rows(board), 3)| == |OutOfLineTiles(board)|
    ensures (set x | x in Collected(Rows(board), 3)) == OutOfLineTiles(board)
  {
    var count := Collected(Rows(board), 3);
    CollectedFacts(board, 3);
    CollectedAll(board, count);
    DistinctCard(count);
  }

  /** After n iterations the list has no repeats, holds only out-of-line tiles, and holds every tile flagged so far. */
  lemma {:induction false} CollectedFacts(board: BoardString, n: int)
    requires 0 <= n <= 3
    ensures Distinct(Collected(Rows(board), n))
    ensures forall x :: x in Collected(Rows(board), n) ==> x in OutOfLineTiles(board)
    ensures forall r, c :: 0 <= r < 3 && 0 <= c < 3 && Flagged(board, r, c, n) ==> board[3 * r + c] in Collected(Rows(board), n)
  {
    if n > 0 {
      var before := Collected(Rows(board), n - 1);
      CollectedFacts(board, n - 1);
      RoundFacts(board, before, n - 1);
      FlaggedStep(board, n - 1, n, before, Collected(Rows(board), n));
    }
  }

  /** One iteration keeps the list free of repeats and sound, keeps what it had, and adds what it flags. */
  lemma RoundFacts(board: BoardString, count: seq<char>, i: int)
    requires 0 <= i < 3 && Distinct(count)
    requires forall x :: x in count ==> x in OutOfLineTiles(board)
    ensures Distinct(Round(Rows(board), count, i))
    ensures forall x :: x in Round(Rows(board), count, i) ==> x in OutOfLineTiles(board)
    ensures forall x :: x in count ==> x in Round(Rows(board), count, i)
    ensures forall r :: 0 <= r < 3 && board[3 * r + i] !in ROW_DIGITS[r] ==> board[3 * r + i] in Round(Rows(board), count, i)
    ensures forall c :: 0 <= c < 3 && board[3 * i + c] !in COL_DIGITS[c] ==> board[3 * i + c] in Round(Rows(board), count, i)
  {
    ColumnFacts(board, count, i);
    RowFacts(board, ColumnByRows(Rows(board), count, i), i);
  }

  lemma ColumnFacts(board: BoardString, count: seq<char>, i: int)
    requires 0 <= i < 3 && Distinct(count)
    requires forall x :: x in count ==> x in OutOfLineTiles(board)
    ensures Distinct(ColumnByRows(Rows(board), count, i))
    ensures forall x :: x in ColumnByRows(Rows(board), count, i) ==> x in OutOfLineTiles(board)
    ensures forall x :: x in count ==> x in ColumnByRows(Rows(board), count, i)
    ensures forall r :: 0 <= r < 3 && board[3 * r + i] !in ROW_DIGITS[r] ==> board[3 * r + i] in ColumnByRows(Rows(board), count, i)
  {
    var g := Rows(board);
    var c1 := Collect(count, g[0][i], ROW_DIGITS[0]);
    CollectFacts(board, count, 0, i, ROW_DIGITS[0]);
    var c2 := Collect(c1, g[1][i], ROW_DIGITS[1]);
    CollectFacts(board, c1, 1, i, ROW_DIGITS[1]);
    CollectFacts(board, c2, 2, i, ROW_DIGITS[2]);
  }

  lemma RowFacts(board: BoardString, count: seq<char>, i: int)
    requires 0 <= i < 3 && Distinct(count)
    requires forall x :: x in count ==> x in OutOfLineTiles(board)
    ensures Distinct(RowByColumns(Rows(board), count, i))
    ensures forall x :: x in RowByColumns(Rows(board), count, i) ==> x in OutOfLineTiles(board)
    ensures forall x :: x in count ==> x in RowByColumns(Rows(board), count, i)
    ensures forall c :: 0 <= c < 3 && board[3 * i + c] !in COL_DIGITS[c] ==> board[3 * i + c] in RowByColumns(Rows(board), count, i)
  {
    var g := Rows(board);
    var c1 := Collect(count, g[i][0], COL_DIGITS[0]);
    CollectFacts(board, count, i, 0, COL_DIGITS[0]);
    var c2 := Collect(c1, g[i][1], COL_DIGITS[1]);
    CollectFacts(board, c1, i, 1, COL_DIGITS[1]);
    CollectFacts(board, c2, i, 2, COL_DIGITS[2]);
  }

  /** One check, of cell (r, c) against its row's or its column's digits. */
  lemma CollectFacts(board: BoardString, count: seq<char>, r: int, c: int, line: string)
    requires 0 <= r < 3 && 0 <= c < 3
    requires line == ROW_DIGITS[r] || line == COL_DIGITS[c]
    requires Distinct(count)
    requires forall x :: x in count ==> x in OutOfLineTiles(board)
    ensures Distinct(Collect(count, board[3 * r + c], line))
    ensures forall x :: x in Collect(count, board[3 * r + c], line) ==> x in OutOfLineTiles(board)
    ensures forall x :: x in count ==> x in Collect(count, board[3 * r + c], line)
    ensures board[3 * r + c] !in line ==> board[3 * r + c] in Collect(count, board[3 * r + c], line)
  {
    var tile := board[3 * r + c];
    if tile !in line {
      assert OutOfLine(board, r, c);
    }
  }

  /** The six checks of iteration i flag the cells of column i by row and the cells of row i by column. */
  lemma FlaggedStep(board: BoardString, i: int, j: int, before: seq<char>, after: seq<char>)
    requires 0 <= i < 3 && j == i + 1
    requires forall r, c :: 0 <= r < 3 && 0 <= c < 3 && Flagged(board, r, c, i) ==> board[3 * r + c] in before
    requires forall x :: x in before ==> x in after
    requires forall r :: 0 <= r < 3 && board[3 * r + i] !in ROW_DIGITS[r] ==> board[3 * r + i] in after
    requires forall c :: 0 <= c < 3 && board[3 * i + c] !in COL_DIGITS[c] ==> board[3 * i + c] in after
    ensures forall r, c :: 0 <= r < 3 && 0 <= c < 3 && Flagged(board, r, c, j) ==> board[3 * r + c] in after
  {
    forall r, c | 0 <= r < 3 && 0 <= c < 3 && Flagged(board, r, c, j) ensures board[3 * r + c] in after {
      if Flagged(board, r, c, i) {
        assert board[3 * r + c] in before;
      }
    }
  }

  /** Once every check has run, the collected tiles are h2's tiles. */
  lemma CollectedAll(board: BoardString, count: seq<char>)
    requires forall x :: x in count ==> x in OutOfLineTiles(board)
    requires forall r, c :: 0 <= r < 3 && 0 <= c < 3 && Flagged(board, r, c, 3) ==> board[3 * r + c] in count
    ensures OutOfLineTiles(board) == set x | x in count
  {
    forall x | x in OutOfLineTiles(board) ensures x in count {
      var r, c :| 0 <= r < 3 && 0 <= c < 3 && OutOfLine(board, r, c) && board[3 * r + c] == x;
      assert Flagged(board, r, c, 3);
    }
  }

  /** Cell (r, c) is flagged by the iterations below i: by its row check (c < i) or by its column check (r < i). */
  predicate Flagged(board: BoardString, r: int, c: int, i: int)
    requires 0 <= r < 3 && 0 <= c < 3
  {
    (c < i && board[3 * r + c] !in ROW_DIGITS[r]) || (r < i && board[3 * r + c] !in COL_DIGITS[c])
  }

  /** No element occurs twice. */
  predicate Distinct(xs: seq<char>) {
    forall i, j :: 0 <= i < j < |xs| ==> xs[i] != xs[j]
  }

  lemma {:induction false} DistinctCard(xs: seq<char>)
    requires Distinct(xs)
    ensures |set x | x in xs| == |xs|
  {
    if xs != [] {
      var init := xs[..|xs| - 1];
      var last := xs[|xs| - 1];
      assert Distinct(init);
      DistinctCard(init);
      assert last !in init;
      assert (set x | x in xs) == (set x | x in init) + {last};
    }
  }

  /** h2 against h1: one less when the blank is home in cell 0, the same otherwise. */
  lemma H2VersusH1(board: BoardString)
    ensures |OutOfLineTiles(board)| - 1 == CountMisplaced(board, 9) - (if board[0] == '0' then 1 else 0)
  {
    var b := IndexOf(board, '0');
    OutOfLineDiffering(board);
    DifferingCount(board, 9);
    DiffersMisplaced(board, 9, b);
    if board[0] == '0' {
      BlankAt(board, 0);
    }
  }

  /** Which of h0, h1 and h2 an informed searcher was built with. */
  datatype Heuristic = UseH0 | UseH1 | UseH2

  /** The value of a heuristic on a node. */
  function Estimate(h: Heuristic, s: State): int {
    match h
    case UseH0 => H0(s)
    case UseH1 => CountMisplaced(s.board, 9)
    case UseH2 => |OutOfLineTiles(s.board)| - 1
  }

  /** Every estimate lies in -1..8; on the goal h0 and h1 give 0 and h2 gives -1, and off the goal h1 and h2 give at least 1. */
  lemma EstimateBounds(h: Heuristic, s: State)
    ensures -1 <= Estimate(h, s) <= 8
    ensures IsGoal(s) ==> Estimate(h, s) == (if h == UseH2 then -1 else 0)
    ensures h != UseH0 && !IsGoal(s) ==> Estimate(h, s) >= 1
  {
    MisplacedBounds(s.board);
    OutOfLineBounds(s.board);
  }

  /** Calls the searcher's heuristic on a node. */
  method Evaluate(h: Heuristic, s: State) returns (v: int)
    ensures v == Estimate(h, s)
  {
    match h {
      case UseH0 => v := H0(s);
      case UseH1 => v := H1(s);
      case UseH2 => v := H2(s);
    }
  }
}
