# 8-puzzle state-space search, modelled in Dafny

This project models the core of a small Python solver for the 8-puzzle: the
3x3 board of tiles `'1'`..`'8'` with a blank `'0'`, the search-tree node
(`State`) that records how a board was reached, and the `Searcher` family
(random, breadth-first, depth-first, greedy and A*) that keeps a frontier of
untested states and expands it until a goal board is found.

The model keeps the source's structure, one file per source file:

- `board.dfy` (`Boards`) covers `board.py`. A `Board` is a class over a
  mutable 3x3 `array2<char>`, abstracted by a ghost field `cells`, the
  board's nine characters read row by row. The constructor, `MoveBlank`,
  `DigitString`, `Copy`, `Equals` and `NumMisplaced` are methods and
  functions on that array. Each is specified by pure functions on digit
  strings (`Slide`, `CountMisplaced`), and what a move means is proved about
  those functions: a move can be undone, and a move changes the board.
- `states.dfy` (`States`) covers `state.py`. A `State` is an immutable
  datatype whose optional predecessor chain is the search-tree path.
  `GenerateSuccessors` and `CreatesCycle` keep the source's loops. Their
  specifications (`Successors`, `RepeatsAncestor`) are related to the
  `Lineage` of a state: successors are exactly the legal moves in the order
  of `MOVES`, and a successor of a repetition-free path that creates no
  cycle is itself repetition-free.
- `heuristics.dfy` (`Heuristics`) covers the three heuristic functions of
  `searcher.py`. `h1` counts misplaced tiles. `h2` counts, row by row and
  column by column, tiles that are not in their goal row or goal column,
  then subtracts one. The model proves that `h2` equals the number of
  out-of-line tiles minus one, and that this is `h1`, minus one more when
  the blank is in its goal cell.
- `searcher.dfy` (`Searchers`) covers the searcher classes of
  `searcher.py`. A single `Searcher` class carries the strategy as a
  datatype. Its fields are the frontier `states`, a sequence of
  (priority, state) entries, and `numTested`. `AddState`, `AddStates`,
  `NextState` and `FindSolution` are methods with the frontier update
  stated exactly. `FindSolution` is proved to return only goal states. It
  also returns, as a ghost value, the states it tested in order. Only the
  last of them can be a goal, each was counted, and, as multisets, every
  entry ever filed is either the entry of a tested state or still in the
  frontier. When it starts from an empty frontier, every state it returns
  or leaves in the frontier descends from the initial state: each step
  below the initial state is a legal move of the blank, made by a node that
  passed should_add.

Three behaviours of the code that the model keeps as written:

- On priority ties `max()` takes the last maximal entry of the frontier,
  because `State.__gt__` is always true (state.py:71-79).
- `find_solution` does not catch `KeyboardInterrupt`; the command-line
  driver does (eight_puzzle.py:55-58).
- The frontier is not cleared between calls to `find_solution`.

## Model

| member | source | states |
|---|---|---|
| Boards.CheckDigits | board.py:20-22 | the constructor's assertions (the length check and the per-digit check in the loop) accept a string exactly when it has nine characters and is a permutation of the digits 0-8 |
| Boards.PermutationCounts | board.py:20-22 | "every digit 0-8 occurs" on a nine-character string is the same as having the digits' multiset, so every digit occurs exactly once |
| Boards.DistinctCells | board.py:20-22 | two different cells of an accepted digit string hold different tiles |
| Boards.NewBoard | board.py:13-33 | a board is built exactly when the digit string passes the assertions; a rejected string yields no board |
| Boards.Board.constructor | board.py:13-33 | the new board's grid holds the string's characters row by row, and blank_r/blank_c locate the '0' |
| Boards.Board.BlankUnique | board.py:28-33 | the cell recorded as the blank is the only grid cell holding '0' |
| Boards.GoalRows | board.py:6-8 | GOAL_TILES is the goal digit string "012345678" laid out in three rows |
| Boards.CellsFromGrid | board.py:6-8 | two digit strings give the same 3x3 grid if and only if they are equal |
| Boards.Board.MoveBlank | board.py:48-100 | the move succeeds exactly when the target cell is on the board; on failure the board is unchanged; on success the grid and blank position are those of Slide; anything but the four direction words fails |
| Boards.Board.Shift | board.py:61-64 | swapping the blank with the neighbouring cell moves that tile into the old blank cell and the blank into the target cell, leaving all other cells alone |
| Boards.SlideUndo | board.py:48-100 | a legal move followed by the opposite move restores the original board |
| Boards.SlideMoves | board.py:61-64 | a legal move changes the board, and the old blank cell no longer holds the blank |
| Boards.Swap | board.py:61-64 | swapping two cells of a digit permutation gives a digit permutation with those two cells exchanged |
| Boards.Board.DigitString | board.py:102-110 | the digit string read back from the grid is the board's cell sequence |
| Boards.DigitStringRoundTrip | board.py:102-110 | building a board from an accepted string and reading it back gives the same string |
| Boards.Board.Copy | board.py:112-116 | the copy is a fresh board with a fresh grid, equal to the original |
| Boards.Board.Equals | board.py:132-139 | two boards are equal exactly when every grid cell agrees, that is, when their digit strings are equal |
| Boards.Board.NumMisplaced | board.py:118-130 | the count of non-blank tiles out of their goal cell is at most 8 and is zero exactly on the goal board; the board is not modified |
| Boards.MisplacedBounds | board.py:118-130 | the misplaced-tile count of a digit permutation is at most 8 and is zero if and only if the board is the goal |
| States.MoveIndex | state.py:9 | each move word has a position in MOVES; the moves are up, down, left, right in that order |
| States.NewState | state.py:16-26 | a root has no predecessor and 0 moves; a child has one more move than its predecessor, and its lineage is the predecessor's lineage plus itself |
| States.LineageShape | state.py:23-26 | in a well-formed state the path from the root has num_moves+1 nodes, the i-th has made i moves, and each node's predecessor is the one before it |
| States.GoalTiles | state.py:28-35 | is_goal's comparison of the grid with GOAL_TILES holds if and only if the state's board is the goal digit string, which is what IsGoal tests |
| States.CreatesCycle | state.py:59-69 | the walk up the predecessor chain reports a cycle if and only if some ancestor has the same board; a root never creates a cycle |
| States.BoardInLineage | state.py:63-68 | one step of that walk: a board occurs among the ancestors if and only if it is on the predecessor or among the predecessor's ancestors |
| States.PathDistinctExtends | state.py:59-69 | a child's path is free of repeated boards if and only if its predecessor's path is and the child creates no cycle |
| States.GenerateSuccessors | state.py:37-46 | the loop over MOVES on fresh copies of the board returns exactly the specified successor list |
| States.SuccessorShape | state.py:40-45 | every successor has the state as predecessor, one more move, a move word from MOVES, and the board that the move produces |
| States.SuccessorsOrdered | state.py:40-45 | successors come in the order of MOVES, with no move repeated |
| States.SuccessorsComplete | state.py:40-45 | a move word has a successor if and only if that move is legal on the board, and that successor holds the moved board |
| States.SuccessorsDiffer | state.py:40-45 | no successor repeats its parent's board, and a successor of a repetition-free path that creates no cycle is itself repetition-free |
| States.SuccessorCount | state.py:37-46 | every board has between two and four successors |
| States.MovesTo | state.py:81-91 | the move list of print_moves_to has one entry per node on the path from the root |
| States.MovesToLineage | state.py:81-91 | the first entry is the root's board, each later entry is the move and board of the matching node on the path, and a well-formed state lists num_moves+1 entries |
| Heuristics.H0 | searcher.py:111-113 | the zero heuristic returns 0 for every state |
| Heuristics.H1 | searcher.py:115-120 | h1 is the misplaced-tile count of the board: between 0 and 8, and 0 exactly on a goal state |
| Heuristics.H2 | searcher.py:145-165 | h2 is the number of tiles out of their goal row or goal column, minus one; it lies between -1 and 8, is -1 exactly on a goal state, and is at least 1 elsewhere |
| Heuristics.CollectedTiles | searcher.py:145-165 | the tiles gathered by the four row-and-column sweeps are exactly the tiles out of line, and none is listed twice |
| Heuristics.OutOfLineBounds | searcher.py:145-165 | on a digit permutation at most nine tiles are out of line, none exactly on the goal board, and at least two on any other board |
| Heuristics.InLine | searcher.py:146-163 | a cell is in both the goal row and goal column of its tile exactly when it holds that tile's goal position |
| Heuristics.H2VersusH1 | searcher.py:122-165 | h2 equals h1 when the blank is away from its goal cell and h1 minus one when it is in it |
| Heuristics.EstimateBounds | searcher.py:111-165 | every heuristic is between -1 and 8; on a goal it is 0, or -1 for h2; an informed heuristic is at least 1 on any non-goal state |
| Heuristics.Evaluate | searcher.py:190-194 | calling the searcher's heuristic on a state yields the specified estimate |
| Searchers.PriorityFacts | searcher.py:190-220 | a greedy priority is between -8 and 1; an A* priority is the greedy priority minus the moves made; a goal state has the highest greedy priority |
| Searchers.ComputePriority | searcher.py:190-220 | greedy priority is minus the heuristic; A* priority is minus the sum of the heuristic and the moves made |
| Searchers.MaxPriorityIndex | searcher.py:203-208 | the chosen entry has maximal priority, and every later entry has strictly lower priority, as max() picks with an always-true greater-than (state.py:71-79) |
| Searchers.Searcher.constructor | searcher.py:14-20 | a new searcher has an empty frontier, no states tested, and the given depth limit; informed searchers have no depth limit (searcher.py:183-188) |
| Searchers.Searcher.AddState | searcher.py:22-26 | the state is appended to the frontier, with its priority for informed searchers (searcher.py:196-201) |
| Searchers.Searcher.ShouldAdd | searcher.py:28-37 | a state is admitted if and only if it is within the depth limit (or there is none) and creates no cycle |
| Searchers.AdmitMembers | searcher.py:52-58 | a state enters the frontier from a successor list if and only if it is in the list and admissible, and it enters with its own priority |
| Searchers.AdmitAppend | searcher.py:52-58 | admitting two lists one after the other is admitting their concatenation |
| Searchers.Searcher.AddStates | searcher.py:52-58 | the frontier grows by exactly the admissible states of the list, in order |
| Searchers.Searcher.NextState | searcher.py:60-66 | the chosen entry is removed and all others stay in order: any entry for random, the first for BFS (searcher.py:89-95), the last for DFS (searcher.py:102-108), the last maximal priority for greedy and A* (searcher.py:203-208) |
| Searchers.Searcher.FindSolution | searcher.py:68-81 | a returned state is a goal and the last state tested, and no earlier tested state is a goal; the tested count grows by exactly the number of states tested, which is at most the fuel and equal to it on an interruption; from an empty frontier the first state tested is the initial one; as multisets, the entries present before the call, the initial entry and the admitted successors of every expanded tested state are exactly the entries of the tested states plus the frontier left; "no solution" leaves an empty frontier; from an empty frontier, the returned goal and every entry left in the frontier descend from the initial state by legal blank moves of nodes that passed should_add; a goal initial state is returned after one test |
| Searchers.Searcher.Search | searcher.py:74-81 | the loop of find_solution, with the same guarantees stated for the frontier it starts from |
| Searchers.Searcher.TestNext | searcher.py:75-76 | one more state is counted as tested; its entry leaves the frontier and joins the tested entries, so no entry is lost; a frontier reached from the initial state stays reached, and so is the tested state |
| Searchers.Searcher.ExpandTested | searcher.py:80 | the frontier grows by exactly the admitted successors of the tested state, which join the entries filed so far; a reached frontier stays reached |
| Searchers.Entries | searcher.py:22-26 | the entries of a list of states: one per state, in order, each filed under its state's entry |
| Searchers.BalancedStart | searcher.py:73 | once the initial state is added and nothing is tested, the frontier is everything filed |
| Searchers.TestStep | searcher.py:76 | taking one entry out of the frontier moves it to the taken entries, keeping filed equal to taken plus frontier as multisets |
| Searchers.ExpandStep | searcher.py:80 | filing new entries at the end of the frontier keeps filed equal to taken plus frontier as multisets |
| Searchers.ExpandReached | searcher.py:80 | filing the admitted successors of a reached state keeps every frontier entry reached from the initial state |
| Searchers.RemoveReached | searcher.py:76 | taking the tested entry out of a frontier reached from the initial state leaves it reached |
| Searchers.ReachedSuccessors | searcher.py:52-58 | each admitted successor of a reached state is reached: it is admissible and its board is its parent's board moved in the direction of its move |

## Left out

- eight_puzzle.py is not part of this model: it holds the command-line driver, file reading, timing, the searcher factory and the KeyboardInterrupt handler, all of which is I/O.
- The `__repr__` methods of Board, State and the searchers only produce text for display, so they are not modelled.
- States.MovesTo: print_moves_to prints its lines; the model returns the sequence of (move, board) entries it would print.
- Searchers.Searcher.NextState: random.choice is modelled as an unconstrained choice of an index, with no probability distribution.
- Searchers.Searcher.NextState: requires a non-empty frontier; the source fails with an exception there, and find_solution never calls it on an empty frontier.
- Searchers.Searcher.FindSolution: takes a fuel bound standing for an external interrupt, with an Interrupted outcome; termination of the unbounded loop and optimality of BFS/A* are not proved.
- Searchers.Searcher.FindSolution: its reachable-from-the-initial-state guarantee is stated only for a search that starts with an empty frontier; on a reused searcher, old entries may lead elsewhere.
- The `str()` write-back in board.py:125 is an identity on single characters and is not modelled.
- A State holds the digit string of its board rather than a Board object; the source never mutates a board once it is stored in a state, so value equality matches its `__eq__`.
- Removal by object identity in `list.remove` and `max` is modelled by position: each state object sits in the frontier at most once.
- Uninformed searchers store entries with priority 0; the source stores bare states. The priority is ignored for those strategies.
- The unused block in h2 (searcher.py:130-144) that computes wrong_row and wrong_col has no effect on the result and is not modelled.
- The heuristic kept as a function object in the informed searchers is modelled as a datatype naming h0, h1 or h2.
- Searchers.Searcher.constructor: the informed searchers' `super().__init__(self)` passes the searcher itself as the depth limit; the model uses -1 (no limit) at once, which is what searcher.py:188 assigns right after.
