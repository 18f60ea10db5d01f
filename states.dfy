/**
 * The search-tree node of state.py: a board, the node it was reached from, the move
 * that reached it and its depth. A node never changes once built and its board is
 * never moved again (successors move fresh copies), so a node is a value here and
 * its board is the board's digit string.
 */
module States {
  import opened Wrappers
  import opened Boards

  /** The four directions, in the order successors are generated (state.py:9). */
  const MOVES: seq<string> := ["up", "down", "left", "right"]

  datatype State = State(board: BoardString, predecessor: Option<State>, move: string, numMoves: int)

  /** Position of a direction in MOVES. */
  function MoveIndex(m: string): (i: nat)
    requires m in MOVES
    ensures i < |MOVES| && MOVES[i] == m
  {
    if m == "up" then 0 else if m == "down" then 1 else if m == "left" then 2 else 3
  }

  /** Every node on the way from `s` to its root got its depth by the constructor's rule. */
  predicate WellFormed(s: State)
    decreases s
  {
    match s.predecessor
    case None => s.numMoves == 0
    case Some(p) => s.numMoves == p.numMoves + 1 && WellFormed(p)
  }

  /** The nodes from the root down to `s`, root first. */
  function Lineage(s: State): (p: seq<State>)
    decreases s
    ensures |p| >= 1 && p[|p| - 1] == s && p[0].predecessor.None?
  {
    match s.predecessor
    case None => [s]
    case Some(q) => Lineage(q) + [s]
  }

  /** The strict ancestors of `s`, root first. */
  function Ancestors(s: State): (a: seq<State>)
    ensures a == Lineage(s)[..|Lineage(s)| - 1]
  {
    match s.predecessor
    case None => []
    case Some(q) =>
      assert Lineage(s)[..|Lineage(s)| - 1] == Lineage(q);
      Lineage(q)
  }

  /** Some node of `xs` has the board `b`. */
  predicate BoardIn(b: BoardString, xs: seq<State>) {
    exists i :: 0 <= i < |xs| && xs[i].board == b
  }

  /** A strict ancestor of `s` has the same board as `s`. */
  predicate RepeatsAncestor(s: State) {
    BoardIn(s.board, Ancestors(s))
  }

  /** No board occurs twice on the way from the root to `s`. */
  predicate PathDistinct(s: State) {
    var p := Lineage(s);
    forall i, j :: 0 <= i < j < |p| ==> p[i].board != p[j].board
  }

  /**
   * State(board, predecessor, move) with its depth: 0 for a root, one more than the
   * predecessor's otherwise.
   */
  function NewState(board: BoardString, predecessor: Option<State>, move: string): (t: State)
    ensures t.board == board && t.predecessor == predecessor && t.move == move
    ensures predecessor.None? ==> WellFormed(t) && Lineage(t) == [t]
    ensures predecessor.Some? ==> (WellFormed(t) <==> WellFormed(predecessor.value))
    ensures predecessor.Some? ==> Lineage(t) == Lineage(predecessor.value) + [t]
    ensures predecessor.Some? ==> Ancestors(t) == Lineage(predecessor.value)
  {
    State(board, predecessor, move, if predecessor.None? then 0 else predecessor.value.numMoves + 1)
  }

  /** In a well-formed node the depth is the number of moves from the root. */
  lemma {:induction false} LineageShape(s: State)
    requires WellFormed(s)
    decreases s
    ensures |Lineage(s)| == s.numMoves + 1
    ensures forall i :: 0 <= i < |Lineage(s)| ==> Lineage(s)[i].numMoves == i
    ensures forall i :: 0 < i < |Lineage(s)| ==> Lineage(s)[i].predecessor == Some(Lineage(s)[i - 1])
  {
    match s.predecessor
    case None =>
    case Some(q) =>
      LineageShape(q);
      assert Lineage(s) == Lineage(q) + [s];
  }

  /** A root repeats no ancestor, and a path whose node repeats no ancestor stays distinct. */
  lemma PathDistinctExtends(s: State)
    ensures s.predecessor.None? ==> PathDistinct(s) && !RepeatsAncestor(s)
    ensures s.predecessor.Some? ==>
      (PathDistinct(s) <==> PathDistinct(s.predecessor.value) && !RepeatsAncestor(s))
  {
    match s.predecessor
    case None =>
    case Some(q) =>
      var p, pq := Lineage(s), Lineage(q);
      assert p == pq + [s];
      if PathDistinct(q) && !RepeatsAncestor(s) {
        forall i, j | 0 <= i < j < |p| ensures p[i].board != p[j].board {
          if j == |p| - 1 {
            assert pq[i] == p[i];
          } else {
            assert pq[i] == p[i] && pq[j] == p[j];
          }
        }
      }
      if PathDistinct(s) {
        forall i, j | 0 <= i < j < |pq| ensures pq[i].board != pq[j].board {
          assert pq[i] == p[i] && pq[j] == p[j];
        }
        forall i | 0 <= i < |pq| ensures pq[i].board != s.board {
          assert p[i] == pq[i] && p[|p| - 1] == s;
        }
      }
  }

  /** A goal state: its board is the goal digit string. */
  predicate IsGoal(s: State) {
    s.board == GOAL_DIGITS
  }

  /** is_goal compares the grid with GOAL_TILES, which holds exactly for the goal states. */
  lemma GoalTiles(s: State)
    ensures IsGoal(s) <==> Rows(s.board) == GOAL_TILES
  {
    CellsFromGrid(s.board, GOAL_DIGITS);
    GoalRows();
  }

  /** Searching the lineage of `p` for a board: `p` itself, then its predecessor's lineage. */
  lemma BoardInLineage(b: BoardString, p: State)
    ensures BoardIn(b, Lineage(p)) <==>
      p.board == b || (p.predecessor.Some? && BoardIn(b, Lineage(p.predecessor.value)))
  {
    var l := Lineage(p);
    assert l[|l| - 1] == p;
    match p.predecessor
    case None =>
    case Some(q) =>
      var lq := Lineage(q);
      assert l == lq + [p];
      if BoardIn(b, l) && p.board != b {
        var i :| 0 <= i < |l| && l[i].board == b;
        assert i < |lq| && lq[i] == l[i];
      }
      if BoardIn(b, lq) {
        var i :| 0 <= i < |lq| && lq[i].board == b;
        assert l[i] == lq[i];
      }
  }

  /** Walks the predecessor chain looking for this node's board. */
  method CreatesCycle(s: State) returns (c: bool)
    ensures c <==> RepeatsAncestor(s)
    ensures s.predecessor.None? ==> !c
  {
    var state := s.predecessor;
    while state.Some?
      invariant RepeatsAncestor(s) <==> state.Some? && BoardIn(s.board, Lineage(state.value))
      decreases state
    {
      var p := state.value;
      BoardInLineage(s.board, p);
      if p.board == s.board {
        return true;
      }
      state := p.predecessor;
    }
    return false;
  }

  /** What each direction of MOVES does to `board`: the board after the move, or None. */
  function Outcomes(board: BoardString): (o: seq<Option<BoardString>>)
    ensures |o| == |MOVES|
    ensures forall i :: 0 <= i < |MOVES| ==> o[i] == Slide(board, MOVES[i])
  {
    seq(|MOVES|, i requires 0 <= i < |MOVES| => Slide(board, MOVES[i]))
  }

  /** The children of `s` for the first `n` directions, given what each direction does to its board. */
  function ExpandUpTo(s: State, outcomes: seq<Option<BoardString>>, n: nat): seq<State>
    requires n <= |outcomes| == |MOVES|
  {
    if n == 0 then []
    else
      ExpandUpTo(s, outcomes, n - 1) +
      match outcomes[n - 1]
      case None => []
      case Some(b) => [NewState(b, Some(s), MOVES[n - 1])]
  }

  /** The successors of `s`, in the order of MOVES. */
  function Successors(s: State): seq<State> {
    ExpandUpTo(s, Outcomes(s.board), |MOVES|)
  }

  /**
   * One successor per direction whose move succeeds on a copy of the board; the
   * copies leave this node's board as it is.
   */
  method GenerateSuccessors(s: State) returns (successors: seq<State>)
    ensures successors == Successors(s)
  {
    successors := [];
    for i := 0 to |MOVES|
      invariant successors == ExpandUpTo(s, Outcomes(s.board), i)
    {
      var b := new Board(s.board);
      var moved := b.MoveBlank(MOVES[i]);
      if moved {
        var d := b.DigitString();
        successors := successors + [NewState(d, Some(s), MOVES[i])];
      }
    }
  }

  /** MOVES lists four different directions. */
  lemma MoveIndexOf(j: nat)
    requires j < |MOVES|
    ensures MoveIndex(MOVES[j]) == j
  {
  }

  /**
   * Each child hangs below `s`, one move deeper, by one of the first `n` directions,
   * whose outcome is the child's board; the children come in the order of MOVES.
   */
  lemma {:induction false} ExpandShape(s: State, outcomes: seq<Option<BoardString>>, n: nat)
    requires n <= |outcomes| == |MOVES|
    ensures forall t :: t in ExpandUpTo(s, outcomes, n) ==>
      t.predecessor == Some(s) && t.numMoves == s.numMoves + 1 &&
      t.move in MOVES && MoveIndex(t.move) < n && outcomes[MoveIndex(t.move)] == Some(t.board)
    ensures forall i, j :: 0 <= i < j < |ExpandUpTo(s, outcomes, n)| ==>
      MoveIndex(ExpandUpTo(s, outcomes, n)[i].move) < MoveIndex(ExpandUpTo(s, outcomes, n)[j].move)
  {
    if n > 0 {
      ExpandShape(s, outcomes, n - 1);
      MoveIndexOf(n - 1);
    }
  }

  /** Direction i yields a child exactly when its outcome is a board. */
  lemma {:induction false} ExpandComplete(s: State, outcomes: seq<Option<BoardString>>, n: nat, i: nat)
    requires i < n <= |outcomes| == |MOVES|
    ensures outcomes[i].Some? <==> exists t :: t in ExpandUpTo(s, outcomes, n) && t.move == MOVES[i]
  {
    var m := MOVES[i];
    var prev := ExpandUpTo(s, outcomes, n - 1);
    MoveIndexOf(i);
    MoveIndexOf(n - 1);
    if i < n - 1 {
      ExpandComplete(s, outcomes, n - 1, i);
      assert MOVES[n - 1] != m;
    } else {
      ExpandShape(s, outcomes, n - 1);
      assert forall t :: t in prev ==> t.move != m;
      if outcomes[i].Some? {
        assert NewState(outcomes[i].value, Some(s), m) in ExpandUpTo(s, outcomes, n);
      }
    }
  }

  /** Each successor hangs below `s`, one move deeper, by a move that turns `s`'s board into its own. */
  lemma SuccessorShape(s: State, t: State)
    requires t in Successors(s)
    ensures t.predecessor == Some(s) && t.numMoves == s.numMoves + 1
    ensures t.move in MOVES && Slide(s.board, t.move) == Some(t.board)
    ensures WellFormed(s) ==> WellFormed(t)
  {
    ExpandShape(s, Outcomes(s.board), |MOVES|);
  }

  /** Successors come in the order of their directions in MOVES, which is up, down, left, right. */
  lemma SuccessorsOrdered(s: State)
    ensures forall t :: t in Successors(s) ==> t.move in MOVES
    ensures forall i, j :: 0 <= i < j < |Successors(s)| ==>
      MoveIndex(Successors(s)[i].move) < MoveIndex(Successors(s)[j].move)
  {
    ExpandShape(s, Outcomes(s.board), |MOVES|);
  }

  /** A direction yields a successor exactly when the blank can move that way, and then the successor's board is the moved board. */
  lemma SuccessorsComplete(s: State, m: string)
    requires m in MOVES
    ensures Slide(s.board, m).Some? <==> exists t :: t in Successors(s) && t.move == m
    ensures forall t :: t in Successors(s) && t.move == m ==> Slide(s.board, m) == Some(t.board)
  {
    ExpandComplete(s, Outcomes(s.board), |MOVES|, MoveIndex(m));
    ExpandShape(s, Outcomes(s.board), |MOVES|);
  }

  /** No successor has its parent's board: every move changes the grid. */
  lemma SuccessorsDiffer(s: State, t: State)
    requires t in Successors(s)
    ensures t.board != s.board
    ensures !PathDistinct(s) || PathDistinct(t) || RepeatsAncestor(t)
  {
    SuccessorShape(s, t);
    SlideMoves(s.board, t.move);
    PathDistinctExtends(t);
  }

  /** Which of the four directions keep a blank at (r, c) on the grid. */
  lemma TargetOpen(r: int, c: int)
    requires 0 <= r < 3 && 0 <= c < 3
    ensures Target(r, c, MOVES[0]).Some? <==> r >= 1
    ensures Target(r, c, MOVES[1]).Some? <==> r <= 1
    ensures Target(r, c, MOVES[2]).Some? <==> c >= 1
    ensures Target(r, c, MOVES[3]).Some? <==> c <= 1
  {
  }

  /** The blank has two, three or four neighbours, and so a node has two to four successors. */
  lemma SuccessorCount(s: State)
    ensures 2 <= |Successors(s)| <= 4
  {
    var k := IndexOf(s.board, '0');
    var r, c := k / 3, k % 3;
    var o := Outcomes(s.board);
    TargetOpen(r, c);
    assert o[0].Some? <==> r >= 1;
    assert o[1].Some? <==> r <= 1;
    assert o[2].Some? <==> c >= 1;
    assert o[3].Some? <==> c <= 1;
    assert |ExpandUpTo(s, o, 4)| == |ExpandUpTo(s, o, 3)| + if o[3].Some? then 1 else 0;
    assert |ExpandUpTo(s, o, 3)| == |ExpandUpTo(s, o, 2)| + if o[2].Some? then 1 else 0;
    assert |ExpandUpTo(s, o, 2)| == |ExpandUpTo(s, o, 1)| + if o[1].Some? then 1 else 0;
    assert |ExpandUpTo(s, o, 1)| == if o[0].Some? then 1 else 0;
  }

  /** One line of the path print_moves_to shows: the initial board, or a move and the board after it. */
  datatype Step = Initial(board: BoardString) | Moved(direction: string, board: BoardString)

  /** The path from the root to `s`, as print_moves_to prints it: the root first. */
  function MovesTo(s: State): (path: seq<Step>)
    decreases s
    ensures |path| == |Lineage(s)|
  {
    match s.predecessor
    case None => [Initial(s.board)]
    case Some(p) => MovesTo(p) + [Moved(s.move, s.board)]
  }

  /** Entry i of the printed path shows node i of the lineage, labelled with its move unless it is the root. */
  lemma {:induction false} MovesToLineage(s: State)
    decreases s
    ensures MovesTo(s)[0] == Initial(Lineage(s)[0].board)
    ensures forall i :: 0 < i < |Lineage(s)| ==>
      MovesTo(s)[i] == Moved(Lineage(s)[i].move, Lineage(s)[i].board)
    ensures WellFormed(s) ==> |MovesTo(s)| == s.numMoves + 1
  {
    if WellFormed(s) {
      LineageShape(s);
    }
    match s.predecessor
    case None =>
    case Some(p) =>
      MovesToLineage(p);
      assert Lineage(s) == Lineage(p) + [s];
  }
}
