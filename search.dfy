/**
 * One iteration of the search loop as a function of the search state, the
 * invariant it keeps, and the whole run to completion. The loop is the body
 * of `solve` in laberinto.py and of `step` in laberintoFinal.py; the methods
 * of the maze class are proved to compute exactly these functions.
 */
module Search {
  import opened Wrappers
  import opened Grids
  import opened Nodes
  import opened Frontiers

  /**
   * The fields a search updates: the frontier's list (and the A* cost table),
   * the explored set, the `num_explored` counter and the stored solution.
   */
  datatype SearchState = SearchState(
    items: seq<Entry>,
    gCosts: map<Cell, int>,
    explored: set<Cell>,
    numExplored: nat,
    solution: Option<Solution>)

  /** What one iteration did: found the frontier empty, removed the goal, or expanded a node. */
  datatype StepOutcome = Exhausted | Reached | Expanded(children: seq<Node>)

  /**
   * The children loop: for each neighbour move in order, add a child node
   * unless its cell is already held by the frontier or explored. Gives the
   * new list, the new cost table and the children added, in order.
   */
  function AddChildren(kind: Kind, items: seq<Entry>, gCosts: map<Cell, int>, explored: set<Cell>, node: Node, moves: seq<Move>)
    : (r: (seq<Entry>, map<Cell, int>, seq<Node>))
    requires kind.AStar? ==> node.state in gCosts
    decreases |moves|
  {
    if moves == [] then (items, gCosts, [])
    else
      var m := moves[0];
      if !HasState(items, m.cell) && m.cell !in explored then
        var child := Child(m.cell, node, m.action);
        var pushed := Push(kind, items, gCosts, child);
        var rest := AddChildren(kind, pushed.0, pushed.1, explored, node, moves[1..]);
        (rest.0, rest.1, [child] + rest.2)
      else
        AddChildren(kind, items, gCosts, explored, node, moves[1..])
  }

  /** The children loop, one move at a time: a move whose cell is held or explored is skipped. */
  lemma AddChildrenSkip(kind: Kind, items: seq<Entry>, gCosts: map<Cell, int>, explored: set<Cell>, node: Node, moves: seq<Move>, i: nat)
    requires kind.AStar? ==> node.state in gCosts
    requires i < |moves| && (HasState(items, moves[i].cell) || moves[i].cell in explored)
    ensures AddChildren(kind, items, gCosts, explored, node, moves[i..]) == AddChildren(kind, items, gCosts, explored, node, moves[i + 1..])
  {
    assert moves[i..][0] == moves[i] && moves[i..][1..] == moves[i + 1..];
  }

  /** The children loop, one move at a time: any other move adds a child, and the loop goes on. */
  lemma AddChildrenTake(kind: Kind, items: seq<Entry>, gCosts: map<Cell, int>, explored: set<Cell>, node: Node, moves: seq<Move>, i: nat)
    requires kind.AStar? ==> node.state in gCosts
    requires i < |moves| && !HasState(items, moves[i].cell) && moves[i].cell !in explored
    ensures var child := Child(moves[i].cell, node, moves[i].action);
      var p := Push(kind, items, gCosts, child);
      var q := AddChildren(kind, p.0, p.1, explored, node, moves[i + 1..]);
      AddChildren(kind, items, gCosts, explored, node, moves[i..]) == (q.0, q.1, [child] + q.2)
  {
    assert moves[i..][0] == moves[i] && moves[i..][1..] == moves[i + 1..];
  }

  /**
   * The children loop's invariant after `i` moves: the moves left, run from
   * the frontier so far, complete the run from the frontier at the start.
   */
  ghost predicate FoldsTo(kind: Kind, items0: seq<Entry>, gCosts0: map<Cell, int>, explored: set<Cell>, node: Node, moves: seq<Move>,
                          i: nat, done: seq<Node>, items: seq<Entry>, gCosts: map<Cell, int>)
  {
    i <= |moves| && (kind.AStar? ==> node.state in gCosts0 && node.state in gCosts) &&
    var r := AddChildren(kind, items, gCosts, explored, node, moves[i..]);
    AddChildren(kind, items0, gCosts0, explored, node, moves) == (r.0, r.1, done + r.2)
  }

  /** The children loop's invariant holds before its first pass. */
  lemma FoldsFromStart(kind: Kind, items: seq<Entry>, gCosts: map<Cell, int>, explored: set<Cell>, node: Node, moves: seq<Move>)
    requires kind.AStar? ==> node.state in gCosts
    ensures FoldsTo(kind, items, gCosts, explored, node, moves, 0, [], items, gCosts)
  {
    assert moves[0..] == moves;
    var r := AddChildren(kind, items, gCosts, explored, node, moves);
    assert [] + r.2 == r.2;
  }

  /** One pass of the children loop keeps its invariant. */
  lemma FoldsOnward(kind: Kind, items0: seq<Entry>, gCosts0: map<Cell, int>, explored: set<Cell>, node: Node, moves: seq<Move>,
                    i: nat, done: seq<Node>, items: seq<Entry>, gCosts: map<Cell, int>,
                    added: seq<Node>, items': seq<Entry>, gCosts': map<Cell, int>)
    requires FoldsTo(kind, items0, gCosts0, explored, node, moves, i, done, items, gCosts)
    requires i < |moves| && (kind.AStar? ==> node.state in gCosts')
    requires var r := AddChildren(kind, items', gCosts', explored, node, moves[i + 1..]);
      AddChildren(kind, items, gCosts, explored, node, moves[i..]) == (r.0, r.1, added + r.2)
    ensures FoldsTo(kind, items0, gCosts0, explored, node, moves, i + 1, done + added, items', gCosts')
  {
    var r := AddChildren(kind, items', gCosts', explored, node, moves[i + 1..]);
    assert done + (added + r.2) == (done + added) + r.2;
  }

  /** After the last pass the invariant gives the whole run. */
  lemma FoldsToEnd(kind: Kind, items0: seq<Entry>, gCosts0: map<Cell, int>, explored: set<Cell>, node: Node, moves: seq<Move>,
                   done: seq<Node>, items: seq<Entry>, gCosts: map<Cell, int>)
    requires FoldsTo(kind, items0, gCosts0, explored, node, moves, |moves|, done, items, gCosts)
    ensures AddChildren(kind, items0, gCosts0, explored, node, moves) == (items, gCosts, done)
  {
    assert moves[|moves|..] == [];
    assert done + [] == done;
  }

  /** The node `remove` takes from a shaped A* list has a recorded cost. */
  lemma PoppedHasCost(kind: Kind, items: seq<Entry>, gCosts: map<Cell, int>)
    requires items != [] && Shaped(kind, items, gCosts)
    ensures kind.AStar? ==> Pop(kind, items).0.state in gCosts
  {
    assert items[PopIndex(kind, items)] in items;
  }

  /**
   * One iteration of the loop. On an empty frontier nothing changes. Otherwise
   * one node is removed and counted; the goal node's path becomes the solution;
   * any other node's cell is explored and its new neighbours are added.
   */
  function StepFn(g: Grid, kind: Kind, s: SearchState): (StepOutcome, SearchState)
    requires Rectangular(g) && Shaped(kind, s.items, s.gCosts)
  {
    if s.items == [] then (Exhausted, s)
    else
      PoppedHasCost(kind, s.items, s.gCosts);
      var node := Pop(kind, s.items).0;
      var rest := Pop(kind, s.items).1;
      if node.state == g.goal then
        (Reached, s.(items := rest, numExplored := s.numExplored + 1, solution := Some(PathOf(node))))
      else
        var explored := s.explored + {node.state};
        var added := AddChildren(kind, rest, s.gCosts, explored, node, Neighbors(g, node.state));
        (Expanded(added.2), SearchState(added.0, added.1, explored, s.numExplored + 1, s.solution))
  }

  /** The iteration that removes the goal, spelled out. */
  lemma StepReachedIs(g: Grid, kind: Kind, s: SearchState)
    requires Rectangular(g) && Shaped(kind, s.items, s.gCosts)
    requires s.items != [] && Pop(kind, s.items).0.state == g.goal
    ensures StepFn(g, kind, s) ==
      (Reached, s.(items := Pop(kind, s.items).1, numExplored := s.numExplored + 1, solution := Some(PathOf(Pop(kind, s.items).0))))
  {
  }

  /** The iteration that expands a node, spelled out. */
  lemma StepExpandedIs(g: Grid, kind: Kind, s: SearchState)
    requires Rectangular(g) && Shaped(kind, s.items, s.gCosts)
    requires s.items != [] && Pop(kind, s.items).0.state != g.goal
    ensures kind.AStar? ==> Pop(kind, s.items).0.state in s.gCosts
    ensures var node := Pop(kind, s.items).0;
      var explored := s.explored + {node.state};
      var added := AddChildren(kind, Pop(kind, s.items).1, s.gCosts, explored, node, Neighbors(g, node.state));
      StepFn(g, kind, s) == (Expanded(added.2), SearchState(added.0, added.1, explored, s.numExplored + 1, s.solution))
  {
    PoppedHasCost(kind, s.items, s.gCosts);
  }

  /** No cell is held twice by the frontier. */
  ghost predicate Distinct(items: seq<Entry>) {
    forall c :: multiset(States(items))[c] <= 1
  }

  /**
   * The frontier part of the invariant: the list is shaped for its strategy,
   * holds each cell at most once, holds only nodes built from the start by
   * neighbour moves, and holds no explored cell; for A* the recorded cost of
   * each held cell is its node's depth and the key is depth + distance to goal.
   */
  ghost predicate FrontierOk(g: Grid, kind: Kind, items: seq<Entry>, gCosts: map<Cell, int>, explored: set<Cell>)
    requires Rectangular(g)
  {
    Shaped(kind, items, gCosts) &&
    Distinct(items) &&
    (forall e :: e in items ==> Linked(g, e.node) && e.node.state !in explored) &&
    (kind.AStar? ==> forall e :: e in items ==>
      e.node.state in gCosts && gCosts[e.node.state] == Depth(e.node) &&
      e.key == Depth(e.node) + Manhattan(e.node.state, kind.goal))
  }

  /** Every neighbour of an explored cell is explored or held by the frontier. */
  ghost predicate Covered(g: Grid, items: seq<Entry>, explored: set<Cell>)
    requires Rectangular(g)
  {
    forall c, m :: c in explored && m in Neighbors(g, c) ==> m.cell in explored || m.cell in States(items)
  }

  /** The loop invariant of `solve` (and of repeated `step` calls after the reset-only `solve`). */
  ghost predicate Inv(g: Grid, kind: Kind, s: SearchState) {
    WellFormed(g) &&
    FrontierOk(g, kind, s.items, s.gCosts, s.explored) &&
    (forall c :: c in s.explored ==> Passable(g, c)) &&
    g.goal !in s.explored &&
    (g.start in s.explored || g.start in States(s.items)) &&
    Covered(g, s.items, s.explored) &&
    s.numExplored == |s.explored|
  }

  /** The free cells of the maze, which bound the explored set. */
  function FreeCells(g: Grid): (r: set<Cell>)
    requires Rectangular(g)
    ensures forall c :: c in r <==> Passable(g, c)
  {
    set row: int, col: int | 0 <= row < g.height && 0 <= col < g.width && !g.walls[row][col] :: Cell(row, col)
  }

  /**
   * The state right after `solve` pushes the start node on an empty frontier;
   * the loop invariant holds there, whatever solution is stored.
   */
  function Start(g: Grid, kind: Kind, gCosts: map<Cell, int>, solution: Option<Solution>): (s: SearchState)
    requires WellFormed(g)
    ensures Inv(g, kind, s)
  {
    var pushed := Push(kind, [], gCosts, Root(g.start));
    StartInv(g, kind, gCosts, solution);
    SearchState(pushed.0, pushed.1, {}, 0, solution)
  }

  lemma MemberState(items: seq<Entry>, e: Entry)
    requires e in items
    ensures e.node.state in States(items)
  {
    var i :| 0 <= i < |items| && items[i] == e;
    assert States(items)[i] == e.node.state;
  }

  /** The cell of a linked node is free. */
  lemma LinkedPassable(g: Grid, n: Node)
    requires WellFormed(g) && Linked(g, n)
    ensures Passable(g, n.state)
  {
    if n.Child? {
      NeighborMoves(g, n.parent.state);
    }
  }

  /** Right after the start node is pushed the frontier holds just it, with cost 0 under A*. */
  lemma StartHolds(kind: Kind, gCosts: map<Cell, int>, start: Cell)
    ensures var pushed := Push(kind, [], gCosts, Root(start));
      pushed.0 == [Entry(KeyOf(kind, gCosts, Root(start)), Root(start))] &&
      States(pushed.0) == [start] &&
      (kind.AStar? ==> start in pushed.1 && pushed.1[start] == 0)
  {
    InsertIntoEmpty(Entry(KeyOf(kind, gCosts, Root(start)), Root(start)));
  }

  /** The invariant holds once the start node is pushed, whatever solution is stored. */
  lemma StartInv(g: Grid, kind: Kind, gCosts: map<Cell, int>, solution: Option<Solution>)
    requires WellFormed(g)
    ensures var pushed := Push(kind, [], gCosts, Root(g.start));
      Inv(g, kind, SearchState(pushed.0, pushed.1, {}, 0, solution))
  {
    var pushed := Push(kind, [], gCosts, Root(g.start));
    StartHolds(kind, gCosts, g.start);
    assert pushed.0[0] in pushed.0;
    assert Shaped(kind, pushed.0, pushed.1);
  }

  /** What one iteration means for the whole run, stated on its outcome and new state. */
  lemma RunAfter(g: Grid, kind: Kind, s: SearchState, outcome: StepOutcome, t: SearchState)
    requires Inv(g, kind, s) && (outcome, t) == StepFn(g, kind, s)
    ensures outcome.Exhausted? ==> Run(g, kind, s) == (false, t)
    ensures outcome.Reached? ==> Run(g, kind, s) == (true, t)
    ensures outcome.Expanded? ==>
      Inv(g, kind, t) && Run(g, kind, s) == Run(g, kind, t) &&
      |FreeCells(g) - t.explored| < |FreeCells(g) - s.explored|
  {
    RunUnfolds(g, kind, s);
  }

  /** A child built from a neighbour move of a linked node, off the start, is linked. */
  lemma ChildLinked(g: Grid, node: Node, m: Move)
    requires Rectangular(g) && Linked(g, node) && m in Neighbors(g, node.state) && m.cell != g.start
    ensures Linked(g, Child(m.cell, node, m.action))
  {
    assert m == Move(m.action, m.cell);
  }

  /** Adding a node whose cell is not held keeps the list free of repeated cells. */
  lemma PushDistinct(kind: Kind, items: seq<Entry>, gCosts: map<Cell, int>, n: Node)
    requires kind.AStar? && n.Child? ==> n.parent.state in gCosts
    requires Distinct(items) && n.state !in States(items)
    ensures Distinct(Push(kind, items, gCosts, n).0)
    ensures multiset(States(Push(kind, items, gCosts, n).0)) == multiset(States(items)) + multiset{n.state}
  {
    var before := multiset(States(items));
    var after := multiset(States(Push(kind, items, gCosts, n).0));
    PushStates(kind, items, gCosts, n);
    assert before[n.state] == 0;
    forall c ensures after[c] <= 1 {
      assert before[c] <= 1;
      assert after[c] == before[c] + multiset{n.state}[c];
    }
  }

  /** Every entry after `add` is an old entry or the new one. */
  lemma PushEntries(kind: Kind, items: seq<Entry>, gCosts: map<Cell, int>, n: Node)
    requires kind.AStar? && n.Child? ==> n.parent.state in gCosts
    ensures forall x :: x in Push(kind, items, gCosts, n).0 ==> x in items || x == Entry(KeyOf(kind, gCosts, n), n)
    ensures forall x :: x in items ==> x in Push(kind, items, gCosts, n).0
  {
    var p := Push(kind, items, gCosts, n).0;
    PushMembers(kind, items, gCosts, n);
    forall x | x in p ensures x in items || x == Entry(KeyOf(kind, gCosts, n), n) {
      assert x in multiset(p);
    }
    forall x | x in items ensures x in p {
      assert x in multiset(items);
    }
  }

  /** Adding a child keeps A*'s recorded costs equal to depths. */
  lemma PushDepths(goal: Cell, items: seq<Entry>, gCosts: map<Cell, int>, node: Node, child: Node)
    requires child.Child? && child.parent == node && child.state != node.state
    requires node.state in gCosts && gCosts[node.state] == Depth(node)
    requires child.state !in States(items)
    requires forall e :: e in items ==>
      e.node.state in gCosts && gCosts[e.node.state] == Depth(e.node) &&
      e.key == Depth(e.node) + Manhattan(e.node.state, goal)
    ensures var p := Push(AStar(goal), items, gCosts, child);
      (forall e :: e in p.0 ==>
        e.node.state in p.1 && p.1[e.node.state] == Depth(e.node) &&
        e.key == Depth(e.node) + Manhattan(e.node.state, goal)) &&
      node.state in p.1 && p.1[node.state] == Depth(node)
  {
    PushEntries(AStar(goal), items, gCosts, child);
    forall e | e in items ensures e.node.state != child.state {
      MemberState(items, e);
    }
  }

  /** Adding one child of an explored node keeps the frontier part of the invariant. */
  lemma PushOk(g: Grid, kind: Kind, items: seq<Entry>, gCosts: map<Cell, int>, explored: set<Cell>, node: Node, m: Move)
    requires Rectangular(g) && FrontierOk(g, kind, items, gCosts, explored)
    requires Linked(g, node) && node.state in explored
    requires kind.AStar? ==> node.state in gCosts && gCosts[node.state] == Depth(node)
    requires m in Neighbors(g, node.state) && !HasState(items, m.cell) && m.cell !in explored
    requires g.start in explored || g.start in States(items)
    ensures var p := Push(kind, items, gCosts, Child(m.cell, node, m.action));
      FrontierOk(g, kind, p.0, p.1, explored) &&
      (kind.AStar? ==> node.state in p.1 && p.1[node.state] == Depth(node)) &&
      multiset(States(p.0)) == multiset(States(items)) + multiset{m.cell}
  {
    var child := Child(m.cell, node, m.action);
    PushShaped(kind, items, gCosts, child);
    PushDistinct(kind, items, gCosts, child);
    PushEntries(kind, items, gCosts, child);
    ChildLinked(g, node, m);
    if kind.AStar? {
      PushDepths(kind.goal, items, gCosts, node, child);
    }
  }

  /** The children loop keeps the frontier part of the invariant. */
  lemma {:induction false} AddChildrenOk(g: Grid, kind: Kind, items: seq<Entry>, gCosts: map<Cell, int>, explored: set<Cell>, node: Node, moves: seq<Move>)
    requires Rectangular(g) && FrontierOk(g, kind, items, gCosts, explored)
    requires Linked(g, node) && node.state in explored
    requires kind.AStar? ==> node.state in gCosts && gCosts[node.state] == Depth(node)
    requires forall m :: m in moves ==> m in Neighbors(g, node.state)
    requires g.start in explored || g.start in States(items)
    ensures var r := AddChildren(kind, items, gCosts, explored, node, moves);
      FrontierOk(g, kind, r.0, r.1, explored) &&
      (kind.AStar? ==> node.state in r.1 && r.1[node.state] == Depth(node))
    decreases |moves|
  {
    if moves != [] {
      var m := moves[0];
      assert forall x :: x in moves[1..] ==> x in moves;
      if !HasState(items, m.cell) && m.cell !in explored {
        var p := Push(kind, items, gCosts, Child(m.cell, node, m.action));
        PushOk(g, kind, items, gCosts, explored, node, m);
        PushKeepsStates(kind, items, gCosts, Child(m.cell, node, m.action));
        AddChildrenOk(g, kind, p.0, p.1, explored, node, moves[1..]);
      } else {
        AddChildrenOk(g, kind, items, gCosts, explored, node, moves[1..]);
      }
    }
  }

  /** `add` keeps every held cell and holds the new node's. */
  lemma PushKeepsStates(kind: Kind, items: seq<Entry>, gCosts: map<Cell, int>, n: Node)
    requires kind.AStar? && n.Child? ==> n.parent.state in gCosts
    ensures forall c :: c in States(items) ==> c in States(Push(kind, items, gCosts, n).0)
    ensures n.state in States(Push(kind, items, gCosts, n).0)
  {
    var p := Push(kind, items, gCosts, n).0;
    PushStates(kind, items, gCosts, n);
    forall c | c in States(items) ensures c in States(p) {
      assert c in multiset(States(items));
      assert c in multiset(States(p));
    }
    assert n.state in multiset(States(p));
  }

  /** After the children loop every cell held before is still held. */
  lemma {:induction false} AddChildrenKeeps(kind: Kind, items: seq<Entry>, gCosts: map<Cell, int>, explored: set<Cell>, node: Node, moves: seq<Move>)
    requires kind.AStar? ==> node.state in gCosts
    ensures forall c :: c in States(items) ==> c in States(AddChildren(kind, items, gCosts, explored, node, moves).0)
    decreases |moves|
  {
    if moves != [] {
      var m := moves[0];
      if !HasState(items, m.cell) && m.cell !in explored {
        var child := Child(m.cell, node, m.action);
        var p := Push(kind, items, gCosts, child);
        PushKeepsStates(kind, items, gCosts, child);
        AddChildrenKeeps(kind, p.0, p.1, explored, node, moves[1..]);
      } else {
        AddChildrenKeeps(kind, items, gCosts, explored, node, moves[1..]);
      }
    }
  }

  /** After the children loop the cell of every move is explored or held. */
  lemma {:induction false} AddChildrenReaches(kind: Kind, items: seq<Entry>, gCosts: map<Cell, int>, explored: set<Cell>, node: Node, moves: seq<Move>)
    requires kind.AStar? ==> node.state in gCosts
    ensures forall m :: m in moves ==> m.cell in explored || m.cell in States(AddChildren(kind, items, gCosts, explored, node, moves).0)
    decreases |moves|
  {
    if moves != [] {
      var m := moves[0];
      var tail := moves[1..];
      assert forall x :: x in moves ==> x == m || x in tail;
      if !HasState(items, m.cell) && m.cell !in explored {
        var child := Child(m.cell, node, m.action);
        var p := Push(kind, items, gCosts, child);
        PushKeepsStates(kind, items, gCosts, child);
        AddChildrenKeeps(kind, p.0, p.1, explored, node, tail);
        AddChildrenReaches(kind, p.0, p.1, explored, node, tail);
      } else {
        AddChildrenKeeps(kind, items, gCosts, explored, node, tail);
        AddChildrenReaches(kind, items, gCosts, explored, node, tail);
      }
    }
  }

  /** The cells of a list of nodes, in order. */
  function CellsOf(cs: seq<Node>): (r: seq<Cell>)
    ensures |r| == |cs|
  {
    if cs == [] then [] else [cs[0].state] + CellsOf(cs[1..])
  }

  /**
   * The children loop grows the list by exactly the children it reports: each
   * child is added to the frontier and to `frontier_nodes` alike.
   */
  lemma AddChildrenGrows(kind: Kind, items: seq<Entry>, gCosts: map<Cell, int>, explored: set<Cell>, node: Node, moves: seq<Move>)
    requires kind.AStar? ==> node.state in gCosts
    ensures var r := AddChildren(kind, items, gCosts, explored, node, moves);
      |r.0| == |items| + |r.2| &&
      multiset(States(r.0)) == multiset(States(items)) + multiset(CellsOf(r.2))
  {
    AddChildrenLength(kind, items, gCosts, explored, node, moves);
    AddChildrenCells(kind, items, gCosts, explored, node, moves);
  }

  lemma {:induction false} AddChildrenLength(kind: Kind, items: seq<Entry>, gCosts: map<Cell, int>, explored: set<Cell>, node: Node, moves: seq<Move>)
    requires kind.AStar? ==> node.state in gCosts
    ensures var r := AddChildren(kind, items, gCosts, explored, node, moves);
      |r.0| == |items| + |r.2|
    decreases |moves|
  {
    if moves != [] {
      var m := moves[0];
      if !HasState(items, m.cell) && m.cell !in explored {
        var child := Child(m.cell, node, m.action);
        var p := Push(kind, items, gCosts, child);
        PushMembers(kind, items, gCosts, child);
        assert |p.0| == |items| + 1 by {
          assert |multiset(p.0)| == |multiset(items)| + 1;
        }
        AddChildrenLength(kind, p.0, p.1, explored, node, moves[1..]);
      } else {
        AddChildrenLength(kind, items, gCosts, explored, node, moves[1..]);
      }
    }
  }

  lemma {:induction false} AddChildrenCells(kind: Kind, items: seq<Entry>, gCosts: map<Cell, int>, explored: set<Cell>, node: Node, moves: seq<Move>)
    requires kind.AStar? ==> node.state in gCosts
    ensures var r := AddChildren(kind, items, gCosts, explored, node, moves);
      multiset(States(r.0)) == multiset(States(items)) + multiset(CellsOf(r.2))
    decreases |moves|
  {
    if moves != [] {
      var m := moves[0];
      if !HasState(items, m.cell) && m.cell !in explored {
        var p := Push(kind, items, gCosts, Child(m.cell, node, m.action));
        AddChildrenCells(kind, p.0, p.1, explored, node, moves[1..]);
        TakeCells(kind, items, gCosts, explored, node, moves);
      } else {
        AddChildrenCells(kind, items, gCosts, explored, node, moves[1..]);
      }
    }
  }

  /** One taken move: the child's cell joins both the frontier and the reported cells. */
  lemma TakeCells(kind: Kind, items: seq<Entry>, gCosts: map<Cell, int>, explored: set<Cell>, node: Node, moves: seq<Move>)
    requires kind.AStar? ==> node.state in gCosts
    requires moves != [] && !HasState(items, moves[0].cell) && moves[0].cell !in explored
    requires var p := Push(kind, items, gCosts, Child(moves[0].cell, node, moves[0].action));
      var after := AddChildren(kind, p.0, p.1, explored, node, moves[1..]);
      multiset(States(after.0)) == multiset(States(p.0)) + multiset(CellsOf(after.2))
    ensures var r := AddChildren(kind, items, gCosts, explored, node, moves);
      multiset(States(r.0)) == multiset(States(items)) + multiset(CellsOf(r.2))
  {
    var child := Child(moves[0].cell, node, moves[0].action);
    var p := Push(kind, items, gCosts, child);
    var after := AddChildren(kind, p.0, p.1, explored, node, moves[1..]);
    var r := AddChildren(kind, items, gCosts, explored, node, moves);
    assert r.0 == after.0 && r.2 == [child] + after.2;
    PushStates(kind, items, gCosts, child);
    assert ([child] + after.2)[1..] == after.2;
    assert multiset(CellsOf(r.2)) == multiset{child.state} + multiset(CellsOf(after.2));
  }

  /** Each of `cs` is a child of `node`, reached by one of `moves`, on a cell outside `explored`. */
  ghost predicate ChildrenOf(cs: seq<Node>, node: Node, moves: seq<Move>, explored: set<Cell>) {
    forall k :: 0 <= k < |cs| ==>
      cs[k].Child? && cs[k].parent == node && Move(cs[k].action, cs[k].state) in moves && cs[k].state !in explored
  }

  /**
   * Each child the children loop reports is a child of the expanded node,
   * reached by one of the moves, on an unexplored cell.
   */
  lemma {:induction false} AddChildrenAdds(kind: Kind, items: seq<Entry>, gCosts: map<Cell, int>, explored: set<Cell>, node: Node, moves: seq<Move>)
    requires kind.AStar? ==> node.state in gCosts
    ensures ChildrenOf(AddChildren(kind, items, gCosts, explored, node, moves).2, node, moves, explored)
    decreases |moves|
  {
    if moves != [] {
      var m := moves[0];
      var tail := moves[1..];
      var r := AddChildren(kind, items, gCosts, explored, node, moves);
      if !HasState(items, m.cell) && m.cell !in explored {
        var child := Child(m.cell, node, m.action);
        var p := Push(kind, items, gCosts, child);
        AddChildrenAdds(kind, p.0, p.1, explored, node, tail);
        var rest := AddChildren(kind, p.0, p.1, explored, node, tail).2;
        assert r.2 == [child] + rest;
        forall k | 0 <= k < |r.2| ensures
          r.2[k].Child? && r.2[k].parent == node && Move(r.2[k].action, r.2[k].state) in moves && r.2[k].state !in explored
        {
          if k == 0 {
            assert r.2[k] == child && Move(child.action, child.state) == m && m in moves;
          } else {
            assert r.2[k] == rest[k - 1];
            assert Move(rest[k - 1].action, rest[k - 1].state) in tail;
          }
        }
      } else {
        AddChildrenAdds(kind, items, gCosts, explored, node, tail);
        assert r == AddChildren(kind, items, gCosts, explored, node, tail);
        forall k | 0 <= k < |r.2| ensures Move(r.2[k].action, r.2[k].state) in moves {
          assert Move(r.2[k].action, r.2[k].state) in tail;
        }
      }
    }
  }

  /** Child nodes whose actions come in the fixed order up, down, left, right. */
  ghost predicate InMoveOrder(cs: seq<Node>) {
    forall i, j :: 0 <= i < j < |cs| ==> cs[i].Child? && cs[j].Child? && Rank(cs[i].action) < Rank(cs[j].action)
  }

  /** A child by the first move, put before children by later moves, keeps the order. */
  lemma ConsInMoveOrder(child: Node, rest: seq<Node>, moves: seq<Move>, explored: set<Cell>)
    requires moves != [] && RankIncreasing(moves) && child.Child? && child.action == moves[0].action
    requires InMoveOrder(rest) && ChildrenOf(rest, child.parent, moves[1..], explored)
    ensures InMoveOrder([child] + rest)
  {
    var cs := [child] + rest;
    forall j | 0 < j < |cs| ensures cs[j].Child? && Rank(child.action) < Rank(cs[j].action) {
      assert cs[j] == rest[j - 1];
      var t :| 0 <= t < |moves[1..]| && moves[1..][t] == Move(rest[j - 1].action, rest[j - 1].state);
      assert moves[t + 1] == moves[1..][t];
    }
    forall i, j | 0 <= i < j < |cs| ensures cs[i].Child? && cs[j].Child? && Rank(cs[i].action) < Rank(cs[j].action) {
      if i > 0 {
        assert cs[i] == rest[i - 1] && cs[j] == rest[j - 1];
      }
    }
  }

  /** The children loop reports its children in the order of the moves. */
  lemma {:induction false} AddChildrenInOrder(kind: Kind, items: seq<Entry>, gCosts: map<Cell, int>, explored: set<Cell>, node: Node, moves: seq<Move>)
    requires kind.AStar? ==> node.state in gCosts
    requires RankIncreasing(moves)
    ensures InMoveOrder(AddChildren(kind, items, gCosts, explored, node, moves).2)
    decreases |moves|
  {
    if moves != [] {
      var m := moves[0];
      var tail := moves[1..];
      var r := AddChildren(kind, items, gCosts, explored, node, moves);
      assert RankIncreasing(tail);
      if !HasState(items, m.cell) && m.cell !in explored {
        var child := Child(m.cell, node, m.action);
        var p := Push(kind, items, gCosts, child);
        AddChildrenInOrder(kind, p.0, p.1, explored, node, tail);
        AddChildrenAdds(kind, p.0, p.1, explored, node, tail);
        var rest := AddChildren(kind, p.0, p.1, explored, node, tail).2;
        assert r.2 == [child] + rest;
        ConsInMoveOrder(child, rest, moves, explored);
      } else {
        AddChildrenInOrder(kind, items, gCosts, explored, node, tail);
        assert r == AddChildren(kind, items, gCosts, explored, node, tail);
      }
    }
  }

  /**
   * The children an expanding iteration reports (laberintoFinal's `frontier_nodes`):
   * children of the removed node, by its neighbour moves, on cells unexplored
   * before it, in the order up, down, left, right.
   */
  lemma StepChildren(g: Grid, kind: Kind, s: SearchState)
    requires Rectangular(g) && Shaped(kind, s.items, s.gCosts) && StepFn(g, kind, s).0.Expanded?
    ensures var node := Pop(kind, s.items).0;
      var cs := StepFn(g, kind, s).0.children;
      ChildrenOf(cs, node, Neighbors(g, node.state), s.explored + {node.state}) && InMoveOrder(cs)
  {
    var node := Pop(kind, s.items).0;
    var explored := s.explored + {node.state};
    StepExpandedIs(g, kind, s);
    NeighborMoves(g, node.state);
    AddChildrenAdds(kind, Pop(kind, s.items).1, s.gCosts, explored, node, Neighbors(g, node.state));
    AddChildrenInOrder(kind, Pop(kind, s.items).1, s.gCosts, explored, node, Neighbors(g, node.state));
  }

  /** Removing a node from a distinct list leaves a list without its cell. */
  lemma PopDistinct(kind: Kind, items: seq<Entry>)
    requires items != [] && Distinct(items)
    ensures Distinct(Pop(kind, items).1)
    ensures Pop(kind, items).0.state !in States(Pop(kind, items).1)
    ensures forall c :: c in States(items) <==> c in States(Pop(kind, items).1) || c == Pop(kind, items).0.state
    ensures forall e :: e in Pop(kind, items).1 ==> e in items
  {
    var rest := Pop(kind, items).1;
    var x := Pop(kind, items).0.state;
    var whole := multiset(States(items));
    var left := multiset(States(rest));
    PopStates(kind, items);
    PopMembers(kind, items);
    assert whole == left + multiset{x};
    forall c ensures left[c] <= 1 {
      assert whole[c] <= 1;
      assert whole[c] == left[c] + multiset{x}[c];
    }
    assert whole[x] <= 1;
    assert left[x] == 0;
    forall c ensures c in States(items) <==> c in States(rest) || c == x {
      assert c in States(items) <==> c in whole;
      assert c in States(rest) <==> c in left;
    }
    forall e | e in rest ensures e in items {
      assert e in multiset(rest);
    }
  }

  /**
   * After `remove`, the rest of the frontier satisfies the frontier part of the
   * invariant with the removed cell explored, and the removed node is linked.
   */
  lemma RemovedOk(g: Grid, kind: Kind, s: SearchState)
    requires Inv(g, kind, s) && s.items != []
    ensures var node := Pop(kind, s.items).0;
      var rest := Pop(kind, s.items).1;
      FrontierOk(g, kind, rest, s.gCosts, s.explored + {node.state}) &&
      Linked(g, node) && node.state !in s.explored && Passable(g, node.state) &&
      (kind.AStar? ==> node.state in s.gCosts && s.gCosts[node.state] == Depth(node)) &&
      (forall c :: c in States(s.items) <==> c in States(rest) || c == node.state)
  {
    var node := Pop(kind, s.items).0;
    var rest := Pop(kind, s.items).1;
    PopDistinct(kind, s.items);
    PopShaped(kind, s.items, s.gCosts);
    PopMembers(kind, s.items);
    assert s.items[PopIndex(kind, s.items)] in s.items;
    LinkedPassable(g, node);
    forall e | e in rest ensures e.node.state != node.state {
      MemberState(rest, e);
    }
  }

  /** Exploring x keeps every explored cell's neighbours covered, given x's are. */
  lemma ExpandCovered(g: Grid, items: seq<Entry>, rest: seq<Entry>, after: seq<Entry>, explored: set<Cell>, x: Cell)
    requires Rectangular(g) && Covered(g, items, explored)
    requires forall c :: c in States(items) ==> c in States(rest) || c == x
    requires forall c :: c in States(rest) ==> c in States(after)
    requires forall m :: m in Neighbors(g, x) ==> m.cell in explored + {x} || m.cell in States(after)
    ensures Covered(g, after, explored + {x})
  {
    forall c, m | c in explored + {x} && m in Neighbors(g, c) ensures m.cell in explored + {x} || m.cell in States(after) {
      if c != x {
        assert m.cell in explored || m.cell in States(items);
      }
    }
  }

  /** Expanding the node `remove` gives keeps the frontier part of the invariant. */
  lemma ExpandedFrontierOk(g: Grid, kind: Kind, s: SearchState)
    requires Inv(g, kind, s) && s.items != []
    ensures var node := Pop(kind, s.items).0;
      var explored := s.explored + {node.state};
      var added := AddChildren(kind, Pop(kind, s.items).1, s.gCosts, explored, node, Neighbors(g, node.state));
      FrontierOk(g, kind, added.0, added.1, explored)
  {
    var node := Pop(kind, s.items).0;
    var explored := s.explored + {node.state};
    RemovedOk(g, kind, s);
    assert g.start in explored || g.start in States(Pop(kind, s.items).1);
    AddChildrenOk(g, kind, Pop(kind, s.items).1, s.gCosts, explored, node, Neighbors(g, node.state));
  }

  /** After expanding, every explored cell's neighbours are explored or held, and so is the start. */
  lemma ExpandedCovered(g: Grid, kind: Kind, s: SearchState)
    requires Inv(g, kind, s) && s.items != []
    ensures var node := Pop(kind, s.items).0;
      var explored := s.explored + {node.state};
      var added := AddChildren(kind, Pop(kind, s.items).1, s.gCosts, explored, node, Neighbors(g, node.state));
      Covered(g, added.0, explored) && (g.start in explored || g.start in States(added.0))
  {
    var node := Pop(kind, s.items).0;
    var rest := Pop(kind, s.items).1;
    var explored := s.explored + {node.state};
    var moves := Neighbors(g, node.state);
    RemovedOk(g, kind, s);
    AddChildrenKeeps(kind, rest, s.gCosts, explored, node, moves);
    AddChildrenReaches(kind, rest, s.gCosts, explored, node, moves);
    var added := AddChildren(kind, rest, s.gCosts, explored, node, moves);
    ExpandCovered(g, s.items, rest, added.0, s.explored, node.state);
  }

  /** Expanding the node `remove` gives keeps the invariant; its cell was free and unexplored. */
  lemma ExpandedInv(g: Grid, kind: Kind, s: SearchState)
    requires Inv(g, kind, s) && s.items != [] && Pop(kind, s.items).0.state != g.goal
    ensures var node := Pop(kind, s.items).0;
      var explored := s.explored + {node.state};
      var added := AddChildren(kind, Pop(kind, s.items).1, s.gCosts, explored, node, Neighbors(g, node.state));
      Inv(g, kind, SearchState(added.0, added.1, explored, s.numExplored + 1, s.solution)) &&
      node.state !in s.explored && Passable(g, node.state)
  {
    RemovedOk(g, kind, s);
    ExpandedFrontierOk(g, kind, s);
    ExpandedCovered(g, kind, s);
  }

  /** An expanding iteration keeps the invariant and explores one more free cell. */
  lemma StepExpandedInv(g: Grid, kind: Kind, s: SearchState)
    requires Inv(g, kind, s) && StepFn(g, kind, s).0.Expanded?
    ensures Inv(g, kind, StepFn(g, kind, s).1)
    ensures s.explored < StepFn(g, kind, s).1.explored
    ensures |FreeCells(g) - StepFn(g, kind, s).1.explored| < |FreeCells(g) - s.explored|
  {
    var node := Pop(kind, s.items).0;
    var explored := s.explored + {node.state};
    StepExpandedIs(g, kind, s);
    ExpandedInv(g, kind, s);
    var free := FreeCells(g);
    assert free - s.explored == (free - explored) + {node.state};
  }

  /** A reaching iteration stores a walk from the start to the goal, of at least one move. */
  lemma StepReached(g: Grid, kind: Kind, s: SearchState)
    requires Inv(g, kind, s) && StepFn(g, kind, s).0.Reached?
    ensures var t := StepFn(g, kind, s).1;
      t.solution.Some? &&
      IsWalk(g, g.start, t.solution.value.actions, t.solution.value.cells) &&
      EndOf(g.start, t.solution.value.cells) == g.goal &&
      |t.solution.value.cells| >= 1 && g.start !in t.solution.value.cells &&
      t.explored == s.explored && t.numExplored == |t.explored| + 1
  {
    var node := Pop(kind, s.items).0;
    PopMembers(kind, s.items);
    assert s.items[PopIndex(kind, s.items)] in s.items;
    PathIsWalk(g, node);
  }

  /** An exhausting iteration happens only when the goal cannot be reached. */
  lemma StepExhausted(g: Grid, kind: Kind, s: SearchState)
    requires Inv(g, kind, s) && StepFn(g, kind, s).0.Exhausted?
    ensures !Reachable(g, g.start, g.goal)
  {
    assert Closed(g, s.explored);
    ClosedSeparates(g, s.explored, g.start, g.goal);
  }

  /**
   * The whole search: iterate until the goal is removed or the frontier
   * empties. It reports True exactly when the goal is reachable from the
   * start, and then stores a walk from the start to the goal.
   */
  function Run(g: Grid, kind: Kind, s: SearchState): (r: (bool, SearchState))
    requires Inv(g, kind, s)
    ensures r.0 <==> Reachable(g, g.start, g.goal)
    ensures r.0 ==> (r.1.solution.Some? &&
      IsWalk(g, g.start, r.1.solution.value.actions, r.1.solution.value.cells) &&
      EndOf(g.start, r.1.solution.value.cells) == g.goal &&
      |r.1.solution.value.cells| >= 1 && g.start !in r.1.solution.value.cells)
    ensures !r.0 ==> r.1.items == [] && r.1.solution == s.solution
    ensures s.explored <= r.1.explored
    ensures r.1.numExplored == |r.1.explored| + (if r.0 then 1 else 0)
    decreases |FreeCells(g) - s.explored|
  {
    var step := StepFn(g, kind, s);
    match step.0
    case Exhausted =>
      StepExhausted(g, kind, s);
      (false, step.1)
    case Reached =>
      StepReached(g, kind, s);
      (true, step.1)
    case Expanded(_) =>
      StepExpandedInv(g, kind, s);
      Run(g, kind, step.1)
  }

  /** Run, one iteration at a time: it stops on an empty frontier or at the goal and otherwise continues. */
  lemma RunUnfolds(g: Grid, kind: Kind, s: SearchState)
    requires Inv(g, kind, s)
    ensures StepFn(g, kind, s).0.Exhausted? ==> Run(g, kind, s) == (false, StepFn(g, kind, s).1)
    ensures StepFn(g, kind, s).0.Reached? ==> Run(g, kind, s) == (true, StepFn(g, kind, s).1)
    ensures StepFn(g, kind, s).0.Expanded? ==>
      Inv(g, kind, StepFn(g, kind, s).1) && Run(g, kind, s) == Run(g, kind, StepFn(g, kind, s).1) &&
      |FreeCells(g) - StepFn(g, kind, s).1.explored| < |FreeCells(g) - s.explored|
  {
    if StepFn(g, kind, s).0.Expanded? {
      StepExpandedInv(g, kind, s);
    }
  }

  /** One iteration never reads the stored solution. */
  lemma StepIgnoresSolution(g: Grid, kind: Kind, s: SearchState, other: Option<Solution>)
    requires Rectangular(g) && Shaped(kind, s.items, s.gCosts)
    ensures var a := StepFn(g, kind, s);
      var b := StepFn(g, kind, s.(solution := other));
      a.0 == b.0 && b.1 == (if a.0.Reached? then a.1 else a.1.(solution := other))
  {
  }

  /**
   * The stored solution is only written, never read: running from two states
   * that differ only in it gives the same outcome, frontier, explored set and
   * count, and the same solution when the goal is reached.
   */
  lemma {:induction false} RunIgnoresSolution(g: Grid, kind: Kind, s: SearchState, other: Option<Solution>)
    requires Inv(g, kind, s)
    ensures Inv(g, kind, s.(solution := other))
    ensures var a := Run(g, kind, s);
      var b := Run(g, kind, s.(solution := other));
      a.0 == b.0 && a.1.items == b.1.items && a.1.gCosts == b.1.gCosts &&
      a.1.explored == b.1.explored && a.1.numExplored == b.1.numExplored &&
      (a.0 ==> a.1.solution == b.1.solution)
    decreases |FreeCells(g) - s.explored|
  {
    var t := s.(solution := other);
    assert Inv(g, kind, t);
    RunUnfolds(g, kind, s);
    RunUnfolds(g, kind, t);
    StepIgnoresSolution(g, kind, s, other);
    var step := StepFn(g, kind, s);
    if step.0.Expanded? {
      RunIgnoresSolution(g, kind, step.1, other);
    }
  }

  /**
   * Under A*, the cost recorded for every held cell is the depth of its node.
   * This reads the A* part of the invariant back out; the proof that each
   * insertion keeps it is in `PushDepths`, and `StepExpandedInv` carries it
   * through every iteration.
   */
  lemma AStarCostIsDepth(g: Grid, goal: Cell, s: SearchState)
    requires Inv(g, AStar(goal), s)
    ensures forall e :: e in s.items ==> e.node.state in s.gCosts && s.gCosts[e.node.state] == Depth(e.node)
    ensures forall e :: e in s.items ==> e.key == s.gCosts[e.node.state] + Manhattan(e.node.state, goal)
  {
  }
}
