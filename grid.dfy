/**
 * Cells, moves and the static part of a maze: its size, its wall grid and its
 * start and goal cells, with the neighbour rule of `Maze.neighbors`, walks over
 * the free cells and what it means for a cell to be reachable.
 */
module Grids {
  import opened Wrappers

  /** A cell is a (row, column) pair; candidate cells may lie outside the maze. */
  datatype Cell = Cell(row: int, col: int)

  /** The four moves, named "up", "down", "left" and "right" in the maze. */
  datatype Action = Up | Down | Left | Right

  /** A neighbour as `neighbors` returns it: the action taken and the cell reached. */
  datatype Move = Move(action: Action, cell: Cell)

  function Name(a: Action): string {
    match a
    case Up => "up"
    case Down => "down"
    case Left => "left"
    case Right => "right"
  }

  /** The direction table of `move_player`, looked up with `.get`: an unknown name gives None. */
  function Direction(name: string): (r: Option<Action>)
    ensures r.Some? ==> Name(r.value) == name
    ensures r.None? ==> forall a: Action :: Name(a) != name
  {
    if name == "up" then Some(Up)
    else if name == "down" then Some(Down)
    else if name == "left" then Some(Left)
    else if name == "right" then Some(Right)
    else None
  }

  /** The cell one move away: rows grow downwards, columns to the right. */
  function Shift(c: Cell, a: Action): Cell {
    match a
    case Up => Cell(c.row - 1, c.col)
    case Down => Cell(c.row + 1, c.col)
    case Left => Cell(c.row, c.col - 1)
    case Right => Cell(c.row, c.col + 1)
  }

  /** Position of an action in the fixed candidate order up, down, left, right. */
  function Rank(a: Action): nat {
    match a
    case Up => 0
    case Down => 1
    case Left => 2
    case Right => 3
  }

  function Abs(x: int): nat {
    if x < 0 then -x else x
  }

  /** The heuristic of the Greedy and A* frontiers: |r - goal.r| + |c - goal.c|. */
  function Manhattan(a: Cell, b: Cell): (d: int)
    ensures d >= 0
    ensures d == 0 <==> a == b
  {
    Abs(a.row - b.row) + Abs(a.col - b.col)
  }

  /**
   * The static maze: `height` lines, `width` the longest line, `walls[r][c]`
   * for each character of line r, and the start and goal cells.
   */
  datatype Grid = Grid(height: nat, width: nat, walls: seq<seq<bool>>, start: Cell, goal: Cell)

  /** Every wall row has `width` entries, so `walls[r][c]` exists for every in-bounds cell. */
  predicate Rectangular(g: Grid) {
    |g.walls| == g.height && forall r :: 0 <= r < |g.walls| ==> |g.walls[r]| == g.width
  }

  predicate InBounds(g: Grid, c: Cell) {
    0 <= c.row < g.height && 0 <= c.col < g.width
  }

  /** The test of `neighbors` and `move_player`: inside [0,height) x [0,width) and not a wall. */
  predicate Passable(g: Grid, c: Cell)
    requires Rectangular(g)
  {
    InBounds(g, c) && !g.walls[c.row][c.col]
  }

  /** A maze as a successful parse of rectangular text produces it. */
  predicate WellFormed(g: Grid) {
    Rectangular(g) && Passable(g, g.start) && Passable(g, g.goal) && g.start != g.goal
  }

  /** The candidate list of `neighbors`, in its fixed order. */
  function Candidates(c: Cell): seq<Move> {
    [Move(Up, Shift(c, Up)), Move(Down, Shift(c, Down)), Move(Left, Shift(c, Left)), Move(Right, Shift(c, Right))]
  }

  predicate RankIncreasing(ms: seq<Move>) {
    forall i, j :: 0 <= i < j < |ms| ==> Rank(ms[i].action) < Rank(ms[j].action)
  }

  /** The filter of the list comprehension in `neighbors`. */
  function KeepPassable(g: Grid, ms: seq<Move>): (r: seq<Move>)
    requires Rectangular(g)
    ensures |r| <= |ms|
  {
    if ms == [] then []
    else
      var rest := KeepPassable(g, ms[1..]);
      if Passable(g, ms[0].cell) then [ms[0]] + rest else rest
  }

  /** The filter keeps exactly the moves to free cells, in their order. */
  lemma {:induction false} KeptMoves(g: Grid, ms: seq<Move>)
    requires Rectangular(g)
    ensures forall m :: m in KeepPassable(g, ms) <==> m in ms && Passable(g, m.cell)
    ensures RankIncreasing(ms) ==> RankIncreasing(KeepPassable(g, ms))
  {
    if ms != [] {
      KeptMoves(g, ms[1..]);
      var rest := KeepPassable(g, ms[1..]);
      assert forall m :: m in ms <==> m == ms[0] || m in ms[1..];
      if Passable(g, ms[0].cell) {
        RankedHead(ms, rest);
      }
    }
  }

  lemma RankedHead(ms: seq<Move>, rest: seq<Move>)
    requires |ms| > 0 && forall m :: m in rest ==> m in ms[1..]
    requires RankIncreasing(ms[1..]) ==> RankIncreasing(rest)
    ensures RankIncreasing(ms) ==> RankIncreasing([ms[0]] + rest)
  {
    if RankIncreasing(ms) {
      forall m | m in rest ensures Rank(ms[0].action) < Rank(m.action) {
        var j :| 0 <= j < |ms[1..]| && ms[1..][j] == m;
        assert ms[j + 1] == m;
      }
      assert RankIncreasing(ms[1..]);
    }
  }

  /**
   * `Maze.neighbors`: the moves up, down, left and right, in that order, whose
   * target cell is inside the maze and not a wall.
   */
  function Neighbors(g: Grid, c: Cell): (r: seq<Move>)
    requires Rectangular(g)
    ensures |r| <= 4
  {
    KeepPassable(g, Candidates(c))
  }

  /**
   * The neighbour moves of a cell: each reaches the shifted cell, which is free
   * and one step away; every action whose shifted cell is free is listed; and
   * the moves come in the fixed order up, down, left, right.
   */
  lemma NeighborMoves(g: Grid, c: Cell)
    requires Rectangular(g)
    ensures forall m :: m in Neighbors(g, c) ==> m.cell == Shift(c, m.action) && Passable(g, m.cell) && Manhattan(c, m.cell) == 1
    ensures forall a: Action :: Move(a, Shift(c, a)) in Neighbors(g, c) <==> Passable(g, Shift(c, a))
    ensures RankIncreasing(Neighbors(g, c))
  {
    CandidatesCover(c);
    KeptMoves(g, Candidates(c));
  }

  /** The candidate list holds exactly one move per action, each reaching its delta at distance 1. */
  lemma CandidatesCover(c: Cell)
    ensures forall m :: m in Candidates(c) ==> m.cell == Shift(c, m.action) && Manhattan(c, m.cell) == 1
    ensures forall a: Action :: Move(a, Shift(c, a)) in Candidates(c)
    ensures RankIncreasing(Candidates(c))
  {
    var cands := Candidates(c);
    forall a: Action ensures Move(a, Shift(c, a)) in cands {
      match a
      case Up => assert cands[0] == Move(a, Shift(c, a));
      case Down => assert cands[1] == Move(a, Shift(c, a));
      case Left => assert cands[2] == Move(a, Shift(c, a));
      case Right => assert cands[3] == Move(a, Shift(c, a));
    }
  }

  /** The cell a walk stands on before its i-th move. */
  function Before(from: Cell, cells: seq<Cell>, i: nat): Cell
    requires i <= |cells|
  {
    if i == 0 then from else cells[i - 1]
  }

  /** The cell a walk from `from` ends on. */
  function EndOf(from: Cell, cells: seq<Cell>): Cell {
    if cells == [] then from else cells[|cells| - 1]
  }

  /**
   * `actions` and `cells` describe a walk from `from`: move i is a neighbour
   * move, as `neighbors` gives it, from the cell before it to `cells[i]`.
   */
  ghost predicate IsWalk(g: Grid, from: Cell, actions: seq<Action>, cells: seq<Cell>)
    requires Rectangular(g)
  {
    |actions| == |cells| &&
    forall i :: 0 <= i < |cells| ==> MoveAt(g, from, actions, cells, i)
  }

  /** Move i of a walk is a neighbour move from the cell before it. */
  ghost predicate MoveAt(g: Grid, from: Cell, actions: seq<Action>, cells: seq<Cell>, i: nat)
    requires Rectangular(g) && |actions| == |cells| && i < |cells|
  {
    Move(actions[i], cells[i]) in Neighbors(g, Before(from, cells, i))
  }

  ghost predicate Reachable(g: Grid, from: Cell, to: Cell)
    requires Rectangular(g)
  {
    exists actions: seq<Action>, cells: seq<Cell> :: IsWalk(g, from, actions, cells) && EndOf(from, cells) == to
  }

  /** No neighbour move leads out of S. */
  ghost predicate Closed(g: Grid, S: set<Cell>)
    requires Rectangular(g)
  {
    forall c, m :: c in S && m in Neighbors(g, c) ==> m.cell in S
  }

  /** A walk only applies the deltas of its actions and only stands on free cells. */
  lemma WalkSteps(g: Grid, from: Cell, actions: seq<Action>, cells: seq<Cell>, i: nat)
    requires Rectangular(g) && IsWalk(g, from, actions, cells) && i < |cells|
    ensures cells[i] == Shift(Before(from, cells, i), actions[i])
    ensures Passable(g, cells[i])
  {
    assert MoveAt(g, from, actions, cells, i);
    NeighborMoves(g, Before(from, cells, i));
  }

  /** Every cell of a walk that starts inside a closed set stays inside it. */
  lemma {:induction false} WalkStaysInside(g: Grid, S: set<Cell>, from: Cell, actions: seq<Action>, cells: seq<Cell>, k: nat)
    requires Rectangular(g) && Closed(g, S) && from in S
    requires IsWalk(g, from, actions, cells) && k < |cells|
    ensures cells[k] in S
  {
    if k > 0 {
      WalkStaysInside(g, S, from, actions, cells, k - 1);
    }
    assert MoveAt(g, from, actions, cells, k);
  }

  /** A closed set that holds `from` but not `to` proves `to` unreachable from `from`. */
  lemma ClosedSeparates(g: Grid, S: set<Cell>, from: Cell, to: Cell)
    requires Rectangular(g) && Closed(g, S) && from in S && to !in S
    ensures !Reachable(g, from, to)
  {
    if Reachable(g, from, to) {
      var actions: seq<Action>, cells: seq<Cell> :| IsWalk(g, from, actions, cells) && EndOf(from, cells) == to;
      if cells != [] {
        WalkStaysInside(g, S, from, actions, cells, |cells| - 1);
      }
    }
  }
}
