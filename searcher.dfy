/**
 * The state-space searchers of searcher.py: one engine loop over a frontier of
 * untested nodes, an admission rule (depth limit and cycle check), and five ways to
 * choose the next node: random, first in (BFS), last in (DFS), and highest priority
 * for the greedy and A* searchers.
 */
module Searchers {
  import opened Wrappers
  import opened Boards
  import opened States
  import opened Heuristics

  /** Searcher, BFSearcher, DFSearcher, GreedySearcher and AStarSearcher. */
  datatype Strategy = Random | BFS | DFS | Greedy(heuristic: Heuristic) | AStar(heuristic: Heuristic)

  /** The searchers that rank their frontier by a heuristic. */
  predicate IsInformed(strategy: Strategy) {
    strategy.Greedy? || strategy.AStar?
  }

  /**
   * A frontier entry: the [priority, state] pair of the informed searchers; the
   * other searchers keep bare states, which carry priority 0 here.
   */
  datatype Entry = Entry(priority: int, state: State)

  /** What a search ends with: a goal node, an exhausted frontier, or an interruption from outside. */
  datatype Outcome = Solved(goal: State) | NoSolution | Interrupted

  /** The priority of an informed searcher: minus the estimate (greedy), minus the sum of estimate and depth (A*). */
  function Priority(strategy: Strategy, s: State): int
    requires IsInformed(strategy)
  {
    match strategy
    case Greedy(h) => -1 * Estimate(h, s)
    case AStar(h) => -1 * (Estimate(h, s) + s.numMoves)
  }

  /** The entry a searcher files a node under. */
  function EntryFor(strategy: Strategy, s: State): Entry {
    if IsInformed(strategy) then Entry(Priority(strategy, s), s) else Entry(0, s)
  }

  /**
   * Greedy priorities lie in -8..1, A* subtracts the depth from the greedy priority,
   * and a goal node has the highest greedy priority there is.
   */
  lemma PriorityFacts(h: Heuristic, s: State, t: State)
    ensures -8 <= Priority(Greedy(h), s) <= 1
    ensures Priority(AStar(h), s) == Priority(Greedy(h), s) - s.numMoves
    ensures IsGoal(t) ==> Priority(Greedy(h), s) <= Priority(Greedy(h), t)
  {
    EstimateBounds(h, s);
    EstimateBounds(h, t);
  }

  /** The priority methods of GreedySearcher and AStarSearcher. */
  method ComputePriority(strategy: Strategy, s: State) returns (p: int)
    requires IsInformed(strategy)
    ensures p == Priority(strategy, s)
  {
    var h := Evaluate(strategy.heuristic, s);
    if strategy.Greedy? {
      p := -1 * h;
    } else {
      p := -1 * (h + s.numMoves);
    }
  }

  /** should_add's rule: within the depth limit (-1: none) and creating no cycle. */
  predicate Admissible(depthLimit: int, s: State) {
    !((depthLimit != -1 && s.numMoves > depthLimit) || RepeatsAncestor(s))
  }

  /** The images under `f` of the nodes of `xs` that `keep` accepts, in order. */
  function FilterMap(keep: State -> bool, f: State -> Entry, xs: seq<State>): seq<Entry> {
    if xs == [] then []
    else (if keep(xs[0]) then [f(xs[0])] else []) + FilterMap(keep, f, xs[1..])
  }

  /** FilterMap yields the images of exactly the accepted nodes. */
  lemma {:induction false} FilterMapMembers(keep: State -> bool, f: State -> Entry, xs: seq<State>)
    ensures forall y :: y in FilterMap(keep, f, xs) ==> exists x :: x in xs && keep(x) && y == f(x)
    ensures forall x :: x in xs && keep(x) ==> f(x) in FilterMap(keep, f, xs)
  {
    if xs != [] {
      FilterMapMembers(keep, f, xs[1..]);
      assert xs == [xs[0]] + xs[1..];
    }
  }

  /** FilterMap works node by node in input order. */
  lemma {:induction false} FilterMapAppend(keep: State -> bool, f: State -> Entry, xs: seq<State>, ys: seq<State>)
    ensures FilterMap(keep, f, xs + ys) == FilterMap(keep, f, xs) + FilterMap(keep, f, ys)
  {
    if xs == [] {
      assert xs + ys == ys;
    } else {
      var head := if keep(xs[0]) then [f(xs[0])] else [];
      FilterMapAppend(keep, f, xs[1..], ys);
      calc {
        FilterMap(keep, f, xs + ys);
        { assert (xs + ys)[0] == xs[0] && (xs + ys)[1..] == xs[1..] + ys; }
        head + FilterMap(keep, f, xs[1..] + ys);
        head + (FilterMap(keep, f, xs[1..]) + FilterMap(keep, f, ys));
        (head + FilterMap(keep, f, xs[1..])) + FilterMap(keep, f, ys);
      }
    }
  }

  /** The entries add_states files for `xs`: the admissible ones, in order. */
  function Admit(strategy: Strategy, depthLimit: int, xs: seq<State>): seq<Entry> {
    FilterMap(s => Admissible(depthLimit, s), s => EntryFor(strategy, s), xs)
  }

  /** Admit keeps exactly the admissible nodes, each filed under its own entry. */
  lemma AdmitMembers(strategy: Strategy, depthLimit: int, xs: seq<State>)
    ensures forall e :: e in Admit(strategy, depthLimit, xs) ==>
      e.state in xs && Admissible(depthLimit, e.state) && e == EntryFor(strategy, e.state)
    ensures forall x :: x in xs && Admissible(depthLimit, x) ==> EntryFor(strategy, x) in Admit(strategy, depthLimit, xs)
  {
    FilterMapMembers(s => Admissible(depthLimit, s), s => EntryFor(strategy, s), xs);
  }

  /** Admitting a concatenation admits its parts one after the other. */
  lemma AdmitAppend(strategy: Strategy, depthLimit: int, xs: seq<State>, ys: seq<State>)
    ensures Admit(strategy, depthLimit, xs + ys) == Admit(strategy, depthLimit, xs) + Admit(strategy, depthLimit, ys)
  {
    FilterMapAppend(s => Admissible(depthLimit, s), s => EntryFor(strategy, s), xs, ys);
  }

  /** Admitting one more node of `xs` appends its entry when it is admissible. */
  lemma AdmitPrefix(strategy: Strategy, depthLimit: int, xs: seq<State>, i: nat)
    requires i < |xs|
    ensures Admit(strategy, depthLimit, xs[..i + 1]) ==
      Admit(strategy, depthLimit, xs[..i]) + if Admissible(depthLimit, xs[i]) then [EntryFor(strategy, xs[i])] else []
  {
    assert xs[..i + 1] == xs[..i] + [xs[i]];
    AdmitAppend(strategy, depthLimit, xs[..i], [xs[i]]);
    AdmitOne(strategy, depthLimit, xs[i]);
  }

  /** A single node is admitted exactly when it is admissible. */
  lemma AdmitOne(strategy: Strategy, depthLimit: int, x: State)
    ensures Admit(strategy, depthLimit, [x]) == if Admissible(depthLimit, x) then [EntryFor(strategy, x)] else []
  {
    var keep, f := s => Admissible(depthLimit, s), s => EntryFor(strategy, s);
    assert [x][1..] == [];
    assert FilterMap(keep, f, [x]) == (if keep(x) then [f(x)] else []) + FilterMap(keep, f, []);
  }

  /** The index a max() over [priority, state] pairs picks: a maximal priority, the last one on ties. */
  method MaxPriorityIndex(entries: seq<Entry>) returns (best: nat)
    requires |entries| > 0
    ensures best < |entries|
    ensures forall j :: 0 <= j < |entries| ==> entries[j].priority <= entries[best].priority
    ensures forall j :: best < j < |entries| ==> entries[j].priority < entries[best].priority
  {
    best := 0;
    for i := 1 to |entries|
      invariant best < i
      invariant forall j :: 0 <= j < i ==> entries[j].priority <= entries[best].priority
      invariant forall j :: best < j < i ==> entries[j].priority < entries[best].priority
    {
      if entries[i].priority >= entries[best].priority {
        best := i;
      }
    }
  }

  class Searcher {
    const strategy: Strategy
    /** The deepest node the searcher admits; -1 for none. */
    const depthLimit: int
    /** The untested nodes. */
    var states: seq<Entry>
    var numTested: int

    /** Informed searchers have no depth limit, and every entry is filed under its node's entry. */
    ghost predicate Valid()
      reads this
    {
      (IsInformed(strategy) ==> depthLimit == -1) &&
      forall i :: 0 <= i < |states| ==> states[i] == EntryFor(strategy, states[i].state)
    }

    /**
     * A searcher with an empty frontier. The informed searchers take no limit
     * (GreedySearcher.__init__ sets it to -1 whatever the base constructor got).
     */
    constructor (strategy: Strategy, depthLimit: int)
      ensures Valid() && this.strategy == strategy
      ensures this.depthLimit == if IsInformed(strategy) then -1 else depthLimit
      ensures states == [] && numTested == 0
    {
      this.strategy := strategy;
      this.depthLimit := if IsInformed(strategy) then -1 else depthLimit;
      states := [];
      numTested := 0;
    }

    /** Appends a node to the frontier (paired with its priority by the informed searchers). */
    method AddState(s: State)
      requires Valid()
      modifies this
      ensures Valid()
      ensures states == old(states) + [EntryFor(strategy, s)]
      ensures numTested == old(numTested)
    {
      if IsInformed(strategy) {
        var p := ComputePriority(strategy, s);
        states := states + [Entry(p, s)];
      } else {
        states := states + [Entry(0, s)];
      }
    }

    /** False exactly when the node is beyond the depth limit or repeats one of its ancestors. */
    method ShouldAdd(s: State) returns (b: bool)
      ensures b == Admissible(depthLimit, s)
      ensures b ==> depthLimit == -1 || s.numMoves <= depthLimit
      ensures b ==> !RepeatsAncestor(s)
    {
      if depthLimit != -1 && s.numMoves > depthLimit {
        return false;
      }
      var cycle := CreatesCycle(s);
      b := !cycle;
    }

    /** Appends, in order, the admissible nodes of `newStates`; the entries already there stay as they are. */
    method AddStates(newStates: seq<State>)
      requires Valid()
      modifies this
      ensures Valid()
      ensures states == old(states) + Admit(strategy, depthLimit, newStates)
      ensures numTested == old(numTested)
    {
      for i := 0 to |newStates|
        invariant Valid() && numTested == old(numTested)
        invariant states == old(states) + Admit(strategy, depthLimit, newStates[..i])
      {
        AdmitPrefix(strategy, depthLimit, newStates, i);
        var add := ShouldAdd(newStates[i]);
        if add {
          AddState(newStates[i]);
        }
      }
      assert newStates[..|newStates|] == newStates;
    }

    /**
     * Removes one entry and returns its node: any entry (Searcher, random.choice), the
     * first (BFS), the last (DFS) or one of highest priority, the last such on ties
     * (Greedy and A*). The other entries keep their order.
     */
    method NextState() returns (s: State, ghost i: nat)
      requires Valid() && |states| > 0
      modifies this
      ensures Valid()
      ensures i < |old(states)| && s == old(states)[i].state
      ensures states == old(states)[..i] + old(states)[i + 1..]
      ensures numTested == old(numTested)
      ensures strategy.BFS? ==> i == 0
      ensures strategy.DFS? ==> i == |old(states)| - 1
      ensures IsInformed(strategy) ==>
        (forall j :: 0 <= j < |old(states)| ==> old(states)[j].priority <= old(states)[i].priority) &&
        (forall j :: i < j < |old(states)| ==> old(states)[j].priority < old(states)[i].priority)
    {
      var k: nat;
      match strategy {
        case Random =>
          k :| 0 <= k < |states|;
        case BFS =>
          k := 0;
        case DFS =>
          k := |states| - 1;
        case Greedy(_) =>
          k := MaxPriorityIndex(states);
        case AStar(_) =>
          k := MaxPriorityIndex(states);
      }
      s := states[k].state;
      i := k;
      states := states[..k] + states[k + 1..];
    }

    /**
     * The head of find_solution's loop: counts one more tested node and takes it
     * from the frontier; its entry moves from the frontier to the entries of the
     * nodes tested so far.
     */
    method TestNext(ghost init: State, ghost start: seq<Entry>, ghost done: seq<State>, ghost fromInit: bool)
      returns (s: State)
      requires Valid() && states != []
      requires Balanced(start + Expansion(strategy, depthLimit, done), Entries(strategy, done), states)
      requires fromInit ==> AllReached(init, depthLimit, states)
      modifies this
      ensures Valid() && numTested == old(numTested) + 1
      ensures Balanced(start + Expansion(strategy, depthLimit, done), Entries(strategy, done + [s]), states)
      ensures fromInit ==> AllReached(init, depthLimit, states) && Reached(init, depthLimit, s)
      ensures |old(states)| == 1 ==> s == old(states)[0].state
    {
      numTested := numTested + 1;
      ghost var before := states;
      ghost var k;
      s, k := NextState();
      TestStep(start + Expansion(strategy, depthLimit, done), Entries(strategy, done), before, k);
      EntriesSnoc(strategy, done, s);
      if fromInit {
        assert before[k] in before;
        RemoveReached(init, depthLimit, before, k);
      }
    }

    /**
     * The else branch of find_solution's loop: files the admissible successors of
     * the last tested node `s`, after which everything filed is the expansion of
     * all the nodes tested so far.
     */
    method ExpandTested(s: State, ghost init: State, ghost start: seq<Entry>, ghost done: seq<State>, ghost fromInit: bool)
      requires Valid()
      requires Balanced(start + Expansion(strategy, depthLimit, done), Entries(strategy, done + [s]), states)
      requires fromInit ==> AllReached(init, depthLimit, states) && Reached(init, depthLimit, s)
      modifies this
      ensures Valid() && numTested == old(numTested)
      ensures states == old(states) + Admit(strategy, depthLimit, Successors(s))
      ensures Balanced(start + Expansion(strategy, depthLimit, done + [s]), Entries(strategy, done + [s]), states)
      ensures fromInit ==> AllReached(init, depthLimit, states)
    {
      var successors := GenerateSuccessors(s);
      ghost var frontier := states;
      AddStates(successors);
      ghost var added := Admit(strategy, depthLimit, successors);
      ExpandStep(start + Expansion(strategy, depthLimit, done), Entries(strategy, done + [s]), frontier, added);
      ExpansionSnoc(strategy, depthLimit, done, s);
      AppendAssoc(start, Expansion(strategy, depthLimit, done), added);
      if fromInit {
        ExpandReached(init, depthLimit, strategy, frontier, s);
      }
    }

    /**
     * find_solution's loop over a frontier that holds `start`, the entries before the
     * call and the initial node's entry. `fromInit` says the frontier held only that entry.
     */
    method Search(ghost init: State, ghost start: seq<Entry>, ghost fromInit: bool, fuel: nat)
      returns (r: Outcome, ghost tested: seq<State>)
      requires Valid() && states == start
      requires Balanced(start + Expansion(strategy, depthLimit, []), Entries(strategy, []), states)
      requires fromInit ==> states == [EntryFor(strategy, init)] && AllReached(init, depthLimit, states)
      modifies this
      ensures Valid()
      ensures numTested == old(numTested) + |tested| && |tested| <= fuel
      ensures r.Interrupted? ==> |tested| == fuel
      ensures r.Solved? ==> tested != [] && r.goal == tested[|tested| - 1] && IsGoal(r.goal)
      ensures forall i :: 0 <= i < |tested| - 1 ==> !IsGoal(tested[i])
      ensures !r.Solved? ==> forall t :: t in tested ==> !IsGoal(t)
      ensures fromInit && fuel > 0 ==> tested != [] && tested[0] == init
      ensures Balanced(start + Expansion(strategy, depthLimit, if r.Solved? then tested[..|tested| - 1] else tested),
        Entries(strategy, tested), states)
      ensures r.NoSolution? ==> states == []
      ensures fromInit && r.Solved? ==> Reached(init, depthLimit, r.goal)
      ensures fromInit ==> AllReached(init, depthLimit, states)
      ensures fromInit && IsGoal(init) && fuel > 0 ==> r == Solved(init) && |tested| == 1
    {
      tested := [];
      var steps := 0;
      while states != []
        invariant Valid() && steps == |tested| <= fuel
        invariant numTested == old(numTested) + |tested|
        invariant tested == [] ==> states == start
        invariant fromInit && tested != [] ==> tested[0] == init
        invariant forall t :: t in tested ==> t.board != GOAL_DIGITS
        invariant Balanced(start + Expansion(strategy, depthLimit, tested), Entries(strategy, tested), states)
        invariant fromInit ==> AllReached(init, depthLimit, states)
        invariant fromInit && init.board == GOAL_DIGITS ==> tested == []
        decreases fuel - steps
      {
        if steps == fuel {
          return Interrupted, tested;
        }
        steps := steps + 1;
        ghost var done := tested;
        var s := TestNext(init, start, done, fromInit);
        tested := tested + [s];
        if IsGoal(s) {
          assert tested[..|tested| - 1] == done;
          return Solved(s), tested;
        }
        ExpandTested(s, init, start, done, fromInit);
      }
      return NoSolution, tested;
    }

    /**
     * find_solution: files the initial node, then tests one node per iteration until a
     * goal turns up or the frontier runs dry. An interruption from outside after
     * `fuel` tests stands in for the loop running on. `tested` lists the nodes that
     * next_state handed out, in order: each was counted, only the last can be a goal,
     * and every entry that left the frontier left it by being tested.
     */
    method FindSolution(init: State, fuel: nat) returns (r: Outcome, ghost tested: seq<State>)
      requires Valid()
      modifies this
      ensures Valid()
      ensures numTested == old(numTested) + |tested| && |tested| <= fuel
      ensures r.Interrupted? ==> |tested| == fuel
      ensures r.Solved? ==> tested != [] && r.goal == tested[|tested| - 1] && IsGoal(r.goal)
      ensures forall i :: 0 <= i < |tested| - 1 ==> !IsGoal(tested[i])
      ensures !r.Solved? ==> forall t :: t in tested ==> !IsGoal(t)
      ensures old(states) == [] && fuel > 0 ==> tested != [] && tested[0] == init
      ensures Balanced(
        old(states) + [EntryFor(strategy, init)] +
          Expansion(strategy, depthLimit, if r.Solved? then tested[..|tested| - 1] else tested),
        Entries(strategy, tested), states)
      ensures r.NoSolution? ==> states == []
      ensures old(states) == [] && r.Solved? ==> Reached(init, depthLimit, r.goal)
      ensures old(states) == [] ==> AllReached(init, depthLimit, states)
      ensures old(states) == [] && IsGoal(init) && fuel > 0 ==> r == Solved(init) && |tested| == 1
    {
      ghost var start := states + [EntryFor(strategy, init)];
      ghost var fromInit := states == [];
      AddState(init);
      BalancedStart(strategy, depthLimit, start);
      r, tested := Search(init, start, fromInit, fuel);
    }
  }

  /** The entries of the nodes `ts`, in order. */
  function Entries(strategy: Strategy, ts: seq<State>): (es: seq<Entry>)
    ensures |es| == |ts|
    ensures forall i :: 0 <= i < |ts| ==> es[i] == EntryFor(strategy, ts[i])
  {
    if ts == [] then [] else Entries(strategy, ts[..|ts| - 1]) + [EntryFor(strategy, ts[|ts| - 1])]
  }

  /** Everything add_states files while the nodes `ts` are expanded one after the other. */
  function Expansion(strategy: Strategy, depthLimit: int, ts: seq<State>): seq<Entry> {
    if ts == [] then [] else Expansion(strategy, depthLimit, ts[..|ts| - 1]) + Admit(strategy, depthLimit, Successors(ts[|ts| - 1]))
  }

  lemma EntriesSnoc(strategy: Strategy, ts: seq<State>, t: State)
    ensures Entries(strategy, ts + [t]) == Entries(strategy, ts) + [EntryFor(strategy, t)]
  {
    assert (ts + [t])[..|ts|] == ts;
  }

  lemma ExpansionSnoc(strategy: Strategy, depthLimit: int, ts: seq<State>, t: State)
    ensures Expansion(strategy, depthLimit, ts + [t]) == Expansion(strategy, depthLimit, ts) + Admit(strategy, depthLimit, Successors(t))
  {
    assert (ts + [t])[..|ts|] == ts;
  }

  /**
   * No entry is lost or made up: everything `filed` so far is, as a multiset, what
   * was `taken` out for testing together with the `frontier` still waiting.
   */
  ghost predicate Balanced(filed: seq<Entry>, taken: seq<Entry>, frontier: seq<Entry>) {
    multiset(filed) == multiset(taken + frontier)
  }

  /** Before the loop, nothing is tested and the frontier is everything filed. */
  lemma BalancedStart(strategy: Strategy, depthLimit: int, start: seq<Entry>)
    ensures Balanced(start + Expansion(strategy, depthLimit, []), Entries(strategy, []), start)
  {
    assert start + [] == start && [] + start == start;
  }

  /** Taking entry k out of the frontier moves it to the taken entries. */
  lemma TestStep(filed: seq<Entry>, taken: seq<Entry>, before: seq<Entry>, k: nat)
    requires Balanced(filed, taken, before) && k < |before|
    ensures Balanced(filed, taken + [before[k]], before[..k] + before[k + 1..])
  {
    TakeEntry(before, k);
  }

  /** Filing entries appends them to both the filed entries and the frontier. */
  lemma ExpandStep(filed: seq<Entry>, taken: seq<Entry>, frontier: seq<Entry>, added: seq<Entry>)
    requires Balanced(filed, taken, frontier)
    ensures Balanced(filed + added, taken, frontier + added)
  {
    assert taken + (frontier + added) == (taken + frontier) + added;
  }

  lemma AppendAssoc(a: seq<Entry>, b: seq<Entry>, c: seq<Entry>)
    ensures a + (b + c) == (a + b) + c
  {
  }

  /** Taking entry k out of a frontier leaves the other entries, as a multiset. */
  lemma TakeEntry(before: seq<Entry>, k: nat)
    requires k < |before|
    ensures multiset(before) == multiset(before[..k] + before[k + 1..]) + multiset{before[k]}
  {
    assert before == before[..k] + [before[k]] + before[k + 1..];
  }

  /**
   * A node the search may test after starting from `init`: `init` itself or a
   * descendant that passed should_add, whose path repeats no board when `init`'s
   * path repeats none, and every step of whose path below `init` is a legal move.
   */
  ghost predicate Reached(init: State, depthLimit: int, s: State) {
    init in Lineage(s) && (s == init || Admissible(depthLimit, s)) &&
    Derived(init, depthLimit, s) &&
    (WellFormed(init) ==> WellFormed(s)) &&
    (PathDistinct(init) ==> PathDistinct(s))
  }

  /**
   * `s` is `init`, or an admissible node whose board is its predecessor's board
   * after the blank slides in the direction `s.move`, with that predecessor
   * derived from `init` in the same way.
   */
  ghost predicate Derived(init: State, depthLimit: int, s: State)
    decreases s
  {
    s == init ||
    (s.predecessor.Some? && Admissible(depthLimit, s) &&
     Slide(s.predecessor.value.board, s.move) == Some(s.board) &&
     Derived(init, depthLimit, s.predecessor.value))
  }

  /** Every node of the frontier was reached from `init`. */
  ghost predicate AllReached(init: State, depthLimit: int, entries: seq<Entry>) {
    forall e :: e in entries ==> Reached(init, depthLimit, e.state)
  }

  /** Taking entry k out of a frontier reached from `init` leaves one reached from `init`. */
  lemma RemoveReached(init: State, depthLimit: int, before: seq<Entry>, k: nat)
    requires AllReached(init, depthLimit, before) && k < |before|
    ensures AllReached(init, depthLimit, before[..k] + before[k + 1..])
  {
    forall e | e in before[..k] + before[k + 1..] ensures Reached(init, depthLimit, e.state) {
      if e in before[..k] {
        assert e in before;
      } else {
        assert e in before;
      }
    }
  }

  /** Filing the admissible successors of a reached node keeps the whole frontier reached from `init`. */
  lemma ExpandReached(init: State, depthLimit: int, strategy: Strategy, frontier: seq<Entry>, s: State)
    requires AllReached(init, depthLimit, frontier) && Reached(init, depthLimit, s)
    ensures AllReached(init, depthLimit, frontier + Admit(strategy, depthLimit, Successors(s)))
  {
    var successors := Successors(s);
    ReachedSuccessors(init, s, depthLimit, successors);
    AdmitMembers(strategy, depthLimit, successors);
  }

  /** The successors the search admits keep being descendants of `init` with the same guarantees. */
  lemma ReachedSuccessors(init: State, s: State, depthLimit: int, successors: seq<State>)
    requires Reached(init, depthLimit, s) && successors == Successors(s)
    ensures forall t :: t in successors && Admissible(depthLimit, t) ==> Reached(init, depthLimit, t)
  {
    forall t | t in successors && Admissible(depthLimit, t) ensures Reached(init, depthLimit, t) {
      SuccessorShape(s, t);
      PathDistinctExtends(t);
      assert Lineage(t) == Lineage(s) + [t];
      assert Derived(init, depthLimit, t);
    }
  }
}
