/**
 * The Eight Puzzle board of board.py: a 3x3 grid of digit characters, '0' standing
 * for the blank, together with the row and column of the blank.
 */
module Boards {
  import opened Wrappers

  /** The goal grid, one inner sequence per row (board.py:6-8). */
  const GOAL_TILES: seq<seq<char>> := [['0', '1', '2'], ['3', '4', '5'], ['6', '7', '8']]

  /** The goal grid read row-major, i.e. the digit string of the goal board. */
  const GOAL_DIGITS: string := "012345678"

  /**
   * What the constructor asserts of its argument: nine characters, among them every
   * digit '0'..'8'. Such a string holds each digit exactly once (PermutationCounts).
   */
  predicate IsDigitPermutation(s: seq<char>) {
    |s| == 9 && forall d :: d in GOAL_DIGITS ==> d in s
  }

  /** A digit string that the Board constructor accepts: the serialised form of a board. */
  type BoardString = s: seq<char> | IsDigitPermutation(s) witness GOAL_DIGITS

  /** The three rows of a row-major string of nine cells. */
  function Rows(cells: seq<char>): (g: seq<seq<char>>)
    requires |cells| == 9
    ensures |g| == 3
    ensures forall r :: 0 <= r < 3 ==> |g[r]| == 3
    ensures forall r, c :: 0 <= r < 3 && 0 <= c < 3 ==> g[r][c] == cells[3 * r + c]
  {
    [cells[..3], cells[3..6], cells[6..]]
  }

  /** Two row-major strings of nine cells with the same rows are equal. */
  lemma CellsFromGrid(a: seq<char>, b: seq<char>)
    requires |a| == 9 && |b| == 9
    ensures Rows(a) == Rows(b) <==> a == b
  {
    if Rows(a) == Rows(b) {
      forall k | 0 <= k < 9 ensures a[k] == b[k] {
        var r, c := k / 3, k % 3;
        assert k == 3 * r + c;
        assert a[k] == Rows(a)[r][c];
      }
    }
  }

  /** Every character occurs in the goal string at most once. */
  lemma GoalCount(x: char)
    ensures multiset(GOAL_DIGITS)[x] == if x in GOAL_DIGITS then 1 else 0
  {
  }

  /** The constructor's assertions hold exactly of the rearrangements of "012345678". */
  lemma PermutationCounts(s: seq<char>)
    ensures IsDigitPermutation(s) <==> multiset(s) == multiset(GOAL_DIGITS)
  {
    var A, B := multiset(GOAL_DIGITS), multiset(s);
    if IsDigitPermutation(s) {
      forall x ensures A[x] <= B[x] {
        GoalCount(x);
        if x in GOAL_DIGITS {
          assert x in s;
        }
      }
      assert A <= B;
      assert B == A + (B - A);
      assert |B - A| == 0;
      assert B - A == multiset{};
    }
    if B == A {
      assert |s| == |B| == |A| == 9;
      forall d | d in GOAL_DIGITS ensures d in s {
        assert d in A;
      }
    }
  }

  /** No character occurs twice in a board string. */
  lemma DistinctCells(s: BoardString, i: int, j: int)
    requires 0 <= i < j < |s|
    ensures s[i] != s[j]
  {
    PermutationCounts(s);
    GoalCount(s[i]);
    assert s == s[..j] + s[j..];
    assert multiset(s) == multiset(s[..j]) + multiset(s[j..]);
    assert s[i] in multiset(s[..j]) by { assert s[..j][i] == s[i]; }
    assert s[j] in multiset(s[j..]) by { assert s[j..][0] == s[j]; }
  }

  /** Every cell of a board string holds a digit '0'..'8'. */
  lemma CellsAreDigits(s: BoardString, k: int)
    requires 0 <= k < |s|
    ensures s[k] in GOAL_DIGITS
  {
    PermutationCounts(s);
    assert s[k] in multiset(s);
  }

  /** The position of the first occurrence of `x`. */
  function IndexOf(s: seq<char>, x: char): (k: nat)
    requires x in s
    ensures k < |s| && s[k] == x && x !in s[..k]
  {
    if s[0] == x then 0
    else
      var k := 1 + IndexOf(s[1..], x);
      assert s[..k] == [s[0]] + s[1..][..k - 1];
      k
  }

  /** In a board string the blank is wherever a '0' is seen. */
  lemma BlankAt(s: BoardString, k: int)
    requires 0 <= k < |s| && s[k] == '0'
    ensures IndexOf(s, '0') == k
  {
    var i := IndexOf(s, '0');
    if i < k {
      DistinctCells(s, i, k);
    } else if k < i {
      DistinctCells(s, k, i);
    }
  }

  /**
   * Where `direction` sends a blank standing at (r, c), as move_blank computes it:
   * None when the target leaves the grid or the direction is not one of the four.
   */
  function Target(r: int, c: int, direction: string): Option<(int, int)> {
    if direction == "up" then
      (if r - 1 > 2 || r - 1 < 0 then None else Some((r - 1, c)))
    else if direction == "down" then
      (if r + 1 > 2 || r + 1 < 0 then None else Some((r + 1, c)))
    else if direction == "left" then
      (if c - 1 > 2 || c - 1 < 0 then None else Some((r, c - 1)))
    else if direction == "right" then
      (if c + 1 > 2 || c + 1 < 0 then None else Some((r, c + 1)))
    else
      None
  }

  /** The opposite of one of the four directions. */
  function Opposite(direction: string): string {
    if direction == "up" then "down"
    else if direction == "down" then "up"
    else if direction == "left" then "right"
    else if direction == "right" then "left"
    else direction
  }

  /** Exchanging two cells keeps a board string a permutation. */
  function Swap(s: BoardString, i: nat, j: nat): (t: BoardString)
    requires i < |s| && j < |s|
    ensures |t| == |s| && t[i] == s[j] && t[j] == s[i]
    ensures forall k :: 0 <= k < |s| && k != i && k != j ==> t[k] == s[k]
  {
    var t := s[i := s[j]][j := s[i]];
    assert forall d :: d in GOAL_DIGITS ==> d in t by {
      forall d | d in GOAL_DIGITS ensures d in t {
        var k :| 0 <= k < |s| && s[k] == d;
        if k == i {
          assert t[j] == d;
        } else if k == j {
          assert t[i] == d;
        } else {
          assert t[k] == d;
        }
      }
    }
    t
  }

  /**
   * The board reached from `cells` by sliding the blank in `direction`, or None when
   * move_blank refuses that direction.
   */
  function Slide(cells: BoardString, direction: string): Option<BoardString> {
    var k := IndexOf(cells, '0');
    match Target(k / 3, k % 3, direction)
    case None => None
    case Some((row, col)) => Some(Swap(cells, k, 3 * row + col))
  }

  /** Sliding the blank back the way it came restores the board. */
  lemma SlideUndo(cells: BoardString, direction: string)
    requires Slide(cells, direction).Some?
    ensures Slide(Slide(cells, direction).value, Opposite(direction)) == Some(cells)
  {
    var k := IndexOf(cells, '0');
    var r, c := k / 3, k % 3;
    assert k == 3 * r + c;
    SlideFrom(cells, r, c, direction);
    var (row, col) := Target(r, c, direction).value;
    var t := 3 * row + col;
    SlideFrom(Swap(cells, k, t), row, col, Opposite(direction));
    TargetUndo(r, c, direction);
    SwapTwice(cells, k, t);
  }

  /** Moving back in the opposite direction returns the blank to where it was. */
  lemma TargetUndo(r: int, c: int, direction: string)
    requires 0 <= r < 3 && 0 <= c < 3 && Target(r, c, direction).Some?
    ensures Target(Target(r, c, direction).value.0, Target(r, c, direction).value.1, Opposite(direction)) == Some((r, c))
  {
    if direction == "up" {
      assert Opposite(direction) == "down" != "up";
    } else if direction == "down" {
      assert Opposite(direction) == "up";
    } else if direction == "left" {
      assert Opposite(direction) == "right" != "up" && "right" != "down" && "right" != "left";
    } else {
      assert Opposite(direction) == "left" != "up" && "left" != "down";
    }
  }

  lemma SwapTwice(s: BoardString, i: nat, j: nat)
    requires i < |s| && j < |s|
    ensures Swap(Swap(s, i, j), j, i) == s
  {
    forall k | 0 <= k < |s| ensures Swap(Swap(s, i, j), j, i)[k] == s[k] {
    }
  }

  /** A slide always changes the board: the blank leaves its cell for another one. */
  lemma SlideMoves(cells: BoardString, direction: string)
    requires Slide(cells, direction).Some?
    ensures Slide(cells, direction).value != cells
    ensures Slide(cells, direction).value[IndexOf(cells, '0')] != '0'
  {
    var k := IndexOf(cells, '0');
    var (row, col) := Target(k / 3, k % 3, direction).value;
    var t := 3 * row + col;
    assert t != k;
    if t < k {
      DistinctCells(cells, t, k);
    } else {
      DistinctCells(cells, k, t);
    }
    assert Slide(cells, direction).value[k] == cells[t];
  }

  /** Slide computed from a known position (r, c) of the blank. */
  lemma SlideFrom(cells: BoardString, r: int, c: int, direction: string)
    requires 0 <= r < 3 && 0 <= c < 3 && cells[3 * r + c] == '0'
    ensures Target(r, c, direction).None? ==> Slide(cells, direction).None?
    ensures Target(r, c, direction).Some? ==>
      var (row, col) := Target(r, c, direction).value;
      0 <= row < 3 && 0 <= col < 3 && Slide(cells, direction) == Some(Swap(cells, 3 * r + c, 3 * row + col))
  {
    BlankAt(cells, 3 * r + c);
    assert (3 * r + c) / 3 == r && (3 * r + c) % 3 == c;
  }

  /** The number of cells among the first `n` whose tile is a non-blank out of its goal place. */
  function CountMisplaced(cells: seq<char>, n: nat): nat
    requires n <= |cells| <= |GOAL_DIGITS|
  {
    if n == 0 then 0
    else CountMisplaced(cells, n - 1) + (if Misplaced(cells, n - 1) then 1 else 0)
  }

  /** Cell `k` holds a tile, not the blank, that differs from the goal's tile there. */
  predicate Misplaced(cells: seq<char>, k: nat)
    requires k < |cells| && k < |GOAL_DIGITS|
  {
    cells[k] != '0' && cells[k] != GOAL_DIGITS[k]
  }

  lemma {:induction false} CountMisplacedBound(cells: seq<char>, n: nat, blank: nat)
    requires n <= |cells| <= |GOAL_DIGITS| && blank < |cells| && cells[blank] == '0'
    ensures CountMisplaced(cells, n) <= if blank < n then n - 1 else n
  {
    if n > 0 {
      CountMisplacedBound(cells, n - 1, blank);
    }
  }

  lemma {:induction false} CountMisplacedZero(cells: seq<char>, n: nat)
    requires n <= |cells| <= |GOAL_DIGITS|
    ensures CountMisplaced(cells, n) == 0 <==> forall k :: 0 <= k < n ==> !Misplaced(cells, k)
  {
    if n > 0 {
      CountMisplacedZero(cells, n - 1);
    }
  }

  /** num_misplaced is at most 8, and it is 0 exactly on the goal board. */
  lemma MisplacedBounds(cells: BoardString)
    ensures CountMisplaced(cells, 9) <= 8
    ensures CountMisplaced(cells, 9) == 0 <==> cells == GOAL_DIGITS
  {
    var b := IndexOf(cells, '0');
    CountMisplacedBound(cells, 9, b);
    CountMisplacedZero(cells, 9);
    if CountMisplaced(cells, 9) == 0 {
      assert !Misplaced(cells, 0);
      forall k | 0 <= k < 9 ensures cells[k] == GOAL_DIGITS[k] {
        if k != 0 {
          DistinctCells(cells, 0, k);
          assert !Misplaced(cells, k);
        }
      }
    }
  }

  /** The goal grid and the goal digit string describe the same arrangement. */
  lemma GoalCell(r: int, c: int)
    requires 0 <= r < 3 && 0 <= c < 3
    ensures GOAL_TILES[r][c] == GOAL_DIGITS[3 * r + c]
  {
  }

  /** GOAL_TILES are the rows of GOAL_DIGITS. */
  lemma GoalRows()
    ensures Rows(GOAL_DIGITS) == GOAL_TILES
  {
    assert GOAL_DIGITS[..3] == GOAL_TILES[0];
    assert GOAL_DIGITS[3..6] == GOAL_TILES[1];
    assert GOAL_DIGITS[6..] == GOAL_TILES[2];
  }

  class Board {
    /** The 3x3 grid; the array itself is never replaced. */
    const tiles: array2<char>
    var blankR: int
    var blankC: int
    /** The grid read row-major: cell (r, c) is character 3 * r + c. */
    ghost var cells: seq<char>

    /** The board object's invariant: a 3x3 grid holding a permutation of the digits, the blank where blankR/blankC say. */
    ghost predicate Valid()
      reads this, tiles
    {
      tiles.Length0 == 3 && tiles.Length1 == 3 && |cells| == 9 &&
      (forall r, c :: 0 <= r < 3 && 0 <= c < 3 ==> tiles[r, c] == cells[3 * r + c]) &&
      IsDigitPermutation(cells) &&
      0 <= blankR < 3 && 0 <= blankC < 3 && tiles[blankR, blankC] == '0'
    }

    /** The grid as board.py's `tiles` list of rows. */
    function Grid(): (g: seq<seq<char>>)
      reads tiles
      requires tiles.Length0 == 3 && tiles.Length1 == 3
      ensures |g| == 3 && forall r :: 0 <= r < 3 ==> |g[r]| == 3
      ensures forall r, c :: 0 <= r < 3 && 0 <= c < 3 ==> g[r][c] == tiles[r, c]
    {
      [[tiles[0, 0], tiles[0, 1], tiles[0, 2]],
       [tiles[1, 0], tiles[1, 1], tiles[1, 2]],
       [tiles[2, 0], tiles[2, 1], tiles[2, 2]]]
    }

    /** Fills the grid from `digitstr` row by row and records where the blank is. */
    constructor (digitstr: string)
      requires IsDigitPermutation(digitstr)
      ensures Valid() && fresh(tiles)
      ensures cells == digitstr
    {
      var t := new char[3, 3];
      var br, bc := -1, -1;
      for r := 0 to 3
        invariant forall i, j :: 0 <= i < 3 && 0 <= j < 3 && 3 * i + j < 3 * r ==> t[i, j] == digitstr[3 * i + j]
        invariant br == -1 ==> '0' !in digitstr[..3 * r]
        invariant br != -1 ==> 0 <= br < r && 0 <= bc < 3 && digitstr[3 * br + bc] == '0'
      {
        for c := 0 to 3
          invariant forall i, j :: 0 <= i < 3 && 0 <= j < 3 && 3 * i + j < 3 * r + c ==> t[i, j] == digitstr[3 * i + j]
          invariant br == -1 ==> '0' !in digitstr[..3 * r + c]
          invariant br != -1 ==> 0 <= br <= r && 0 <= bc < 3 && 3 * br + bc < 3 * r + c && digitstr[3 * br + bc] == '0'
        {
          t[r, c] := digitstr[3 * r + c];
          assert digitstr[..3 * r + c + 1] == digitstr[..3 * r + c] + [digitstr[3 * r + c]];
          if t[r, c] == '0' {
            br, bc := r, c;
          }
        }
      }
      assert digitstr[..9] == digitstr;
      tiles := t;
      blankR, blankC := br, bc;
      cells := digitstr;
    }

    /** Row-major concatenation of the grid: the string the board was built from. */
    method DigitString() returns (s: string)
      requires Valid()
      ensures s == cells
      ensures forall r, c :: 0 <= r < 3 && 0 <= c < 3 ==> s[3 * r + c] == tiles[r, c]
    {
      s := "";
      for r := 0 to 3
        invariant s == cells[..3 * r]
      {
        for c := 0 to 3
          invariant s == cells[..3 * r + c]
        {
          assert cells[..3 * r + c + 1] == cells[..3 * r + c] + [tiles[r, c]];
          s := s + [tiles[r, c]];
        }
      }
      assert cells[..9] == cells;
    }

    /** A board with the same tiles whose grid shares nothing with this one. */
    method Copy() returns (b: Board)
      requires Valid()
      ensures fresh(b) && fresh(b.tiles) && b.Valid()
      ensures b.cells == cells && b.Equals(this)
    {
      var d := DigitString();
      b := new Board(d);
    }

    /** Tiles equal cell by cell. */
    function Equals(other: Board): (r: bool)
      reads this, tiles, other, other.tiles
      requires Valid() && other.Valid()
      ensures r <==> cells == other.cells
      ensures r <==> forall i, j :: 0 <= i < 3 && 0 <= j < 3 ==> tiles[i, j] == other.tiles[i, j]
    {
      CellsOfGrid();
      other.CellsOfGrid();
      Grid() == other.Grid()
    }

    /** The blank's recorded position is the only cell holding '0'. */
    lemma BlankUnique(r: int, c: int)
      requires Valid() && 0 <= r < 3 && 0 <= c < 3 && tiles[r, c] == '0'
      ensures r == blankR && c == blankC
    {
      var k, b := 3 * r + c, 3 * blankR + blankC;
      if k < b {
        DistinctCells(cells, k, b);
      } else if b < k {
        DistinctCells(cells, b, k);
      }
    }

    /** Each character of `cells` is the tile of its grid cell. */
    lemma CellsOfGrid()
      requires Valid()
      ensures forall k :: 0 <= k < 9 ==> cells[k] == tiles[k / 3, k % 3]
    {
      forall k | 0 <= k < 9 ensures cells[k] == tiles[k / 3, k % 3] {
        assert k == 3 * (k / 3) + k % 3;
      }
    }

    /** Moves the blank into the cell (row, col), whose tile takes the blank's old cell. */
    method Shift(row: int, col: int)
      requires Valid() && 0 <= row < 3 && 0 <= col < 3
      modifies this, tiles
      ensures Valid() && blankR == row && blankC == col
      ensures cells == old(cells)[3 * old(blankR) + old(blankC) := old(cells)[3 * row + col]][3 * row + col := '0']
      ensures cells == Swap(old(cells), 3 * old(blankR) + old(blankC), 3 * row + col)
    {
      ghost var b, t := 3 * blankR + blankC, 3 * row + col;
      tiles[blankR, blankC] := tiles[row, col];
      tiles[row, col] := '0';
      blankR, blankC := row, col;
      assert cells[b] == '0';
      cells := Swap(cells, b, t);
    }

    /**
     * Slides the blank one cell in `direction` when the grid allows it; otherwise
     * (off the grid, or an unknown direction) leaves the board as it was.
     */
    method MoveBlank(direction: string) returns (moved: bool)
      requires Valid()
      modifies this, tiles
      ensures Valid()
      ensures moved <==> Target(old(blankR), old(blankC), direction).Some?
      ensures moved ==> (blankR, blankC) == Target(old(blankR), old(blankC), direction).value
      ensures moved ==> cells == old(cells)[3 * old(blankR) + old(blankC) := old(cells)[3 * blankR + blankC]][3 * blankR + blankC := '0']
      ensures !moved ==> cells == old(cells) && blankR == old(blankR) && blankC == old(blankC) && unchanged(tiles)
      ensures Slide(old(cells), direction) == if moved then Some(cells) else None
    {
      SlideFrom(cells, blankR, blankC, direction);
      var row, col := 0, 0;
      if direction == "up" {
        row, col := blankR - 1, blankC;
        if row > 2 || row < 0 {
          return false;
        }
        Shift(row, col);
        return true;
      } else if direction == "down" {
        row, col := blankR + 1, blankC;
        if row > 2 || row < 0 {
          return false;
        }
        Shift(row, col);
        return true;
      } else if direction == "left" {
        row, col := blankR, blankC - 1;
        if col > 2 || col < 0 {
          return false;
        }
        Shift(row, col);
        return true;
      } else if direction == "right" {
        row, col := blankR, blankC + 1;
        if col > 2 || col < 0 {
          return false;
        }
        Shift(row, col);
        return true;
      } else {
        return false;
      }
    }

    /** Counts the tiles, the blank excepted, that are not where the goal grid has them. */
    method NumMisplaced() returns (count: nat)
      requires Valid()
      ensures count == CountMisplaced(cells, 9)
      ensures count <= 8
      ensures count == 0 <==> cells == GOAL_DIGITS
    {
      count := 0;
      for r := 0 to 3
        invariant count == CountMisplaced(cells, 3 * r)
      {
        for c := 0 to 3
          invariant count == CountMisplaced(cells, 3 * r + c)
        {
          GoalCell(r, c);
          if tiles[r, c] == '0' {
            count := count + 0;
          } else if tiles[r, c] != GOAL_TILES[r][c] {
            count := count + 1;
          }
        }
      }
      MisplacedBounds(cells);
    }
  }

  /** The digit check of the constructor: length nine, then each digit '0'..'8' in turn. */
  method CheckDigits(digitstr: string) returns (ok: bool)
    ensures ok <==> IsDigitPermutation(digitstr)
  {
    if |digitstr| != 9 {
      return false;
    }
    for x := 0 to 9
      invariant forall j :: 0 <= j < x ==> GOAL_DIGITS[j] in digitstr
    {
      if GOAL_DIGITS[x] !in digitstr {
        return false;
      }
    }
    return true;
  }

  /** Board(digitstr) including its assertions: null where an assertion of board.py:20-22 fails. */
  method NewBoard(digitstr: string) returns (b: Board?)
    ensures b == null <==> !IsDigitPermutation(digitstr)
    ensures b != null ==> fresh(b) && fresh(b.tiles) && b.Valid() && b.cells == digitstr
  {
    var ok := CheckDigits(digitstr);
    if !ok {
      return null;
    }
    b := new Board(digitstr);
  }

  /** Building a board and serialising it gives back the string: Board(s).digit_string() == s. */
  method DigitStringRoundTrip(digitstr: string) returns (s: string)
    requires IsDigitPermutation(digitstr)
    ensures s == digitstr
  {
    var b := new Board(digitstr);
    s := b.DigitString();
  }
}
