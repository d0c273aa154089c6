/**
 * The maze object: its static grid, the player's position and the fields a
 * search updates. `Solve` is the run-to-completion loop of laberinto.py;
 * `BeginSolve` and `Step` are the reset-only `solve` and the one-iteration
 * `step` of laberintoFinal.py. Both are proved to compute the functions of
 * the Search module, whose invariant gives their meaning.
 */
module Mazes {
  import opened Wrappers
  import opened Grids
  import opened MazeText
  import opened Nodes
  import opened Frontiers
  import opened Search

  class Maze {
    /** `height`, `width`, `walls`, `start` and `goal`, fixed at construction. */
    const grid: Grid
    var playerPos: Cell
    var solution: Option<Solution>
    var numExplored: nat
    var explored: set<Cell>
    /** Fields of laberintoFinal.py only. */
    var solutionFound: bool
    var frontierNodes: seq<Node>

    /** The grid is well formed and the player stands on a free cell. */
    ghost predicate Valid()
      reads this
    {
      WellFormed(grid) && Passable(grid, playerPos)
    }

    /** The search fields of this maze together with the frontier's list and cost table. */
    ghost function Snapshot(f: Frontier): SearchState
      reads this, f
    {
      SearchState(f.items, f.gCosts, explored, numExplored, solution)
    }

    /** `Maze(...)` once the text is parsed: the player starts on the start cell, nothing is solved. */
    constructor(g: Grid)
      requires WellFormed(g)
      ensures Valid() && grid == g && playerPos == g.start
      ensures solution == None && numExplored == 0 && explored == {}
      ensures !solutionFound && frontierNodes == []
    {
      grid := g;
      playerPos := g.start;
      solution := None;
      numExplored := 0;
      explored := {};
      solutionFound := false;
      frontierNodes := [];
    }

    /**
     * `Maze.__init__` on the file's text: fails exactly when 'A' or 'B' does
     * not occur once; otherwise the grid is the one the text describes.
     * Rows must be of equal length (see the model's notes on ragged rows).
     */
    static method Load(text: string) returns (r: Result<Maze, ParseError>)
      requires Parse(text).Success? ==> Rectangular(Parse(text).value)
      ensures r.Failure? <==> Count(text, 'A') != 1 || Count(text, 'B') != 1
      ensures r.Success? ==>
        fresh(r.value) && r.value.Valid() && r.value.grid == Parse(text).value &&
        Describes(Lines(text), r.value.grid) &&
        r.value.playerPos == r.value.grid.start && r.value.solution == None
    {
      var parsed := Parse(text);
      if parsed.Failure? {
        return Failure(parsed.error);
      }
      var m := new Maze(parsed.value);
      return Success(m);
    }

    /**
     * The children loop shared by `solve` and `step`: for each neighbour move
     * in order, add a child node unless its cell is held by the frontier or
     * explored. Gives the children added, in order.
     */
    method Expand(f: Frontier, node: Node, moves: seq<Move>) returns (children: seq<Node>)
      requires Valid() && f.Valid()
      requires f.kind.AStar? ==> node.state in f.gCosts
      modifies f
      ensures f.Valid()
      ensures var r := AddChildren(f.kind, old(f.items), old(f.gCosts), explored, node, moves);
        f.items == r.0 && f.gCosts == r.1 && children == r.2
    {
      children := [];
      var i := 0;
      FoldsFromStart(f.kind, f.items, f.gCosts, explored, node, moves);
      while i < |moves|
        invariant f.Valid()
        invariant FoldsTo(f.kind, old(f.items), old(f.gCosts), explored, node, moves, i, children, f.items, f.gCosts)
      {
        ghost var (items, gCosts) := (f.items, f.gCosts);
        var added := ExpandMove(f, node, moves, i);
        FoldsOnward(f.kind, old(f.items), old(f.gCosts), explored, node, moves, i, children, items, gCosts, added, f.items, f.gCosts);
        children := children + added;
        i := i + 1;
      }
      FoldsToEnd(f.kind, old(f.items), old(f.gCosts), explored, node, moves, children, f.items, f.gCosts);
    }

    /** One pass of the children loop: the child for `moves[i]`, if it is added. */
    method ExpandMove(f: Frontier, node: Node, moves: seq<Move>, i: nat) returns (added: seq<Node>)
      requires f.Valid() && i < |moves|
      requires f.kind.AStar? ==> node.state in f.gCosts
      modifies f
      ensures f.Valid()
      ensures f.kind.AStar? ==> node.state in f.gCosts
      ensures var r := AddChildren(f.kind, f.items, f.gCosts, explored, node, moves[i + 1..]);
        AddChildren(f.kind, old(f.items), old(f.gCosts), explored, node, moves[i..]) == (r.0, r.1, added + r.2)
    {
      var m := moves[i];
      if !f.ContainsState(m.cell) && m.cell !in explored {
        var child := Child(m.cell, node, m.action);
        AddChildrenTake(f.kind, f.items, f.gCosts, explored, node, moves, i);
        PushKeepsCosts(f.kind, f.items, f.gCosts, child, node.state);
        f.Add(child);
        added := [child];
      } else {
        AddChildrenSkip(f.kind, f.items, f.gCosts, explored, node, moves, i);
        added := [];
        ghost var r := AddChildren(f.kind, f.items, f.gCosts, explored, node, moves[i + 1..]);
        assert added + r.2 == r.2;
      }
    }

    /**
     * One iteration of the search loop, common to laberinto.py's `solve` and
     * laberintoFinal.py's `step`: on a non-empty frontier, remove and count one
     * node; store the goal node's path, or explore the node's cell and add its
     * new neighbours.
     */
    method Advance(f: Frontier) returns (outcome: StepOutcome)
      requires Valid() && f.Valid()
      modifies this, f
      ensures Valid() && f.Valid()
      ensures (outcome, Snapshot(f)) == StepFn(grid, f.kind, old(Snapshot(f)))
      ensures playerPos == old(playerPos) && solutionFound == old(solutionFound) && frontierNodes == old(frontierNodes)
    {
      ghost var s := Snapshot(f);
      if f.IsEmpty() {
        return Exhausted;
      }
      PoppedHasCost(f.kind, f.items, f.gCosts);
      var removed := f.Remove();
      var node := removed.value;
      numExplored := numExplored + 1;
      if node.state == grid.goal {
        var sol := Reconstruct(node);
        solution := Some(sol);
        StepReachedIs(grid, f.kind, s);
        return Reached;
      }
      explored := explored + {node.state};
      StepExpandedIs(grid, f.kind, s);
      var children := Expand(f, node, Neighbors(grid, node.state));
      return Expanded(children);
    }

    /**
     * `solve` of laberinto.py: push the start node on the given (fresh)
     * frontier, then remove nodes until the goal is removed (store its path,
     * report True) or the frontier empties (report False). The solution
     * stored by an earlier run is not cleared.
     */
    method Solve(f: Frontier) returns (found: bool)
      requires Valid() && f.Valid() && f.items == []
      modifies this, f
      ensures Valid() && f.Valid()
      ensures var r := Run(grid, f.kind, Start(grid, f.kind, old(f.gCosts), old(solution)));
        found == r.0 && Snapshot(f) == r.1
      ensures found <==> Reachable(grid, grid.start, grid.goal)
      ensures found ==> (solution.Some? &&
        IsWalk(grid, grid.start, solution.value.actions, solution.value.cells) &&
        EndOf(grid.start, solution.value.cells) == grid.goal && grid.start !in solution.value.cells)
      ensures !found ==> solution == old(solution) && f.items == []
      ensures numExplored == |explored| + (if found then 1 else 0)
      ensures playerPos == old(playerPos) && solutionFound == old(solutionFound) && frontierNodes == old(frontierNodes)
    {
      ghost var s0 := Start(grid, f.kind, f.gCosts, solution);
      numExplored := 0;
      var start := Root(grid.start);
      f.Add(start);
      explored := {};
      assert Snapshot(f) == s0;
      found := Search(f);
    }

    /**
     * The `while` loop of laberinto.py's `solve`: iterate until the goal node
     * is removed (True) or the frontier is empty (False).
     */
    method Search(f: Frontier) returns (found: bool)
      requires Valid() && f.Valid() && Inv(grid, f.kind, Snapshot(f))
      modifies this, f
      ensures Valid() && f.Valid()
      ensures (found, Snapshot(f)) == Run(grid, f.kind, old(Snapshot(f)))
      ensures playerPos == old(playerPos) && solutionFound == old(solutionFound) && frontierNodes == old(frontierNodes)
    {
      ghost var result := Run(grid, f.kind, Snapshot(f));
      while !f.IsEmpty()
        invariant Valid() && f.Valid()
        invariant Inv(grid, f.kind, Snapshot(f))
        invariant Run(grid, f.kind, Snapshot(f)) == result
        invariant playerPos == old(playerPos) && solutionFound == old(solutionFound) && frontierNodes == old(frontierNodes)
        decreases |FreeCells(grid) - explored|
      {
        ghost var s := Snapshot(f);
        var outcome := Advance(f);
        RunAfter(grid, f.kind, s, outcome, Snapshot(f));
        if outcome.Reached? {
          return true;
        }
      }
      RunUnfolds(grid, f.kind, Snapshot(f));
      return false;
    }

    /**
     * `solve` of laberintoFinal.py: reset the search fields and push the start
     * node on the given frontier, without searching.
     */
    method BeginSolve(f: Frontier)
      requires Valid() && f.Valid()
      modifies this, f
      ensures Valid() && f.Valid()
      ensures numExplored == 0 && explored == {} && solution == None
      ensures !solutionFound && frontierNodes == []
      ensures (f.items, f.gCosts) == Push(f.kind, old(f.items), old(f.gCosts), Root(grid.start))
      ensures playerPos == old(playerPos)
    {
      numExplored := 0;
      var start := Root(grid.start);
      f.Add(start);
      explored := {};
      solutionFound := false;
      solution := None;
      frontierNodes := [];
    }

    /**
     * `step`: one iteration of the loop. On an empty frontier it returns
     * False and changes nothing. Otherwise it removes and counts one node;
     * the goal node's path is stored, `solution_found` is set and it returns
     * True; any other node's cell is explored and `frontier_nodes` becomes
     * the list of children added.
     */
    method Step(f: Frontier) returns (found: bool)
      requires Valid() && f.Valid()
      modifies this, f
      ensures Valid() && f.Valid()
      ensures var r := StepFn(grid, f.kind, old(Snapshot(f)));
        Snapshot(f) == r.1 && found == r.0.Reached? &&
        (r.0.Expanded? ==> frontierNodes == r.0.children) &&
        (!r.0.Expanded? ==> frontierNodes == old(frontierNodes)) &&
        solutionFound == (old(solutionFound) || r.0.Reached?)
      ensures playerPos == old(playerPos)
    {
      var outcome := Advance(f);
      match outcome {
        case Exhausted =>
          found := false;
        case Reached =>
          solutionFound := true;
          found := true;
        case Expanded(children) =>
          frontierNodes := children;
          found := false;
      }
    }

    /**
     * The GUI's use of laberintoFinal.py: the reset-only `solve`, then `step`
     * until it returns True or the frontier is empty. The outcome, frontier,
     * explored set and count are those of laberinto.py's `solve` on the same
     * maze and an empty frontier of the same kind, and so is the solution
     * whenever one is found.
     */
    method SolveStepwise(f: Frontier) returns (found: bool)
      requires Valid() && f.Valid() && f.items == []
      modifies this, f
      ensures Valid() && f.Valid()
      ensures var r := Run(grid, f.kind, Start(grid, f.kind, old(f.gCosts), old(solution)));
        found == r.0 && f.items == r.1.items && f.gCosts == r.1.gCosts &&
        explored == r.1.explored && numExplored == r.1.numExplored &&
        (found ==> solution == r.1.solution)
      ensures found <==> Reachable(grid, grid.start, grid.goal)
      ensures solutionFound == found
      ensures !found ==> solution == None
      ensures playerPos == old(playerPos)
    {
      ghost var s0 := Start(grid, f.kind, f.gCosts, None);
      RunIgnoresSolution(grid, f.kind, s0, solution);
      assert s0.(solution := solution) == Start(grid, f.kind, f.gCosts, solution);
      BeginSolve(f);
      assert Snapshot(f) == s0;
      found := StepAll(f);
    }

    /**
     * The GUI's loop over `step`: call it until it returns True or the
     * frontier is empty. Together the calls compute the whole run.
     */
    method StepAll(f: Frontier) returns (found: bool)
      requires Valid() && f.Valid() && Inv(grid, f.kind, Snapshot(f)) && !solutionFound
      modifies this, f
      ensures Valid() && f.Valid()
      ensures (found, Snapshot(f)) == Run(grid, f.kind, old(Snapshot(f)))
      ensures solutionFound == found && playerPos == old(playerPos)
    {
      ghost var result := Run(grid, f.kind, Snapshot(f));
      found := false;
      while !found && !f.IsEmpty()
        invariant Valid() && f.Valid()
        invariant solutionFound == found && playerPos == old(playerPos)
        invariant !found ==> Inv(grid, f.kind, Snapshot(f)) && Run(grid, f.kind, Snapshot(f)) == result
        invariant found ==> result == (true, Snapshot(f))
        decreases if found then 0 else 1 + |FreeCells(grid) - explored|
      {
        ghost var s := Snapshot(f);
        found := Step(f);
        RunAfter(grid, f.kind, s, StepFn(grid, f.kind, s).0, Snapshot(f));
      }
      if !found {
        RunAfter(grid, f.kind, Snapshot(f), Exhausted, Snapshot(f));
      }
    }

    /** `solve_dfs` of laberinto.py: solve with a fresh stack. */
    method SolveDfs() returns (found: bool)
      requires Valid()
      modifies this
      ensures Valid()
      ensures found <==> Reachable(grid, grid.start, grid.goal)
      ensures var r := Run(grid, Stack, Start(grid, Stack, map[], old(solution)));
        found == r.0 && explored == r.1.explored && numExplored == r.1.numExplored && solution == r.1.solution
      ensures playerPos == old(playerPos) && solutionFound == old(solutionFound) && frontierNodes == old(frontierNodes)
    {
      var f := new Frontier.NewStack();
      found := Solve(f);
    }

    /** `solve_bfs` of laberinto.py: solve with a fresh queue. */
    method SolveBfs() returns (found: bool)
      requires Valid()
      modifies this
      ensures Valid()
      ensures found <==> Reachable(grid, grid.start, grid.goal)
      ensures var r := Run(grid, Queue, Start(grid, Queue, map[], old(solution)));
        found == r.0 && explored == r.1.explored && numExplored == r.1.numExplored && solution == r.1.solution
      ensures playerPos == old(playerPos) && solutionFound == old(solutionFound) && frontierNodes == old(frontierNodes)
    {
      var f := new Frontier.NewQueue();
      found := Solve(f);
    }

    /**
     * `solve_dfs`, `solve_bfs`, `solve_greedy` and `solve_a_star` of
     * laberintoFinal.py: each builds a fresh frontier, passes it to the
     * reset-only `solve` and drops it, so all that remains is the reset.
     */
    method BeginDfs()
      requires Valid()
      modifies this
      ensures Valid() && numExplored == 0 && explored == {} && solution == None
      ensures !solutionFound && frontierNodes == [] && playerPos == old(playerPos)
    {
      var f := new Frontier.NewStack();
      BeginSolve(f);
    }

    method BeginBfs()
      requires Valid()
      modifies this
      ensures Valid() && numExplored == 0 && explored == {} && solution == None
      ensures !solutionFound && frontierNodes == [] && playerPos == old(playerPos)
    {
      var f := new Frontier.NewQueue();
      BeginSolve(f);
    }

    method BeginGreedy()
      requires Valid()
      modifies this
      ensures Valid() && numExplored == 0 && explored == {} && solution == None
      ensures !solutionFound && frontierNodes == [] && playerPos == old(playerPos)
    {
      var f := new Frontier.NewGreedy(grid.goal);
      BeginSolve(f);
    }

    method BeginAStar()
      requires Valid()
      modifies this
      ensures Valid() && numExplored == 0 && explored == {} && solution == None
      ensures !solutionFound && frontierNodes == [] && playerPos == old(playerPos)
    {
      var f := new Frontier.NewAStar(grid.start, grid.goal);
      BeginSolve(f);
    }

    /**
     * `move_player`: step one cell in the named direction when that cell is
     * inside the maze and free; otherwise, and for an unknown name, stay.
     */
    method MovePlayer(direction: string)
      requires Valid()
      modifies this
      ensures Valid()
      ensures var d := Direction(direction);
        if d.Some? && Passable(grid, Shift(old(playerPos), d.value))
        then playerPos == Shift(old(playerPos), d.value)
        else playerPos == old(playerPos)
      ensures solution == old(solution) && numExplored == old(numExplored) && explored == old(explored)
      ensures solutionFound == old(solutionFound) && frontierNodes == old(frontierNodes)
    {
      var d := Direction(direction);
      if d.Some? {
        var next := Shift(playerPos, d.value);
        if 0 <= next.row < grid.height && 0 <= next.col < grid.width && !grid.walls[next.row][next.col] {
          playerPos := next;
        }
      }
    }
  }
}
