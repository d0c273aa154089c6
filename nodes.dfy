/**
 * Search nodes and path reconstruction. A node is created once and never
 * changed, and it points only at its parent, so it is a value: the start node
 * is a Root and every other node a Child holding its parent and the action
 * that led from the parent's cell to its own.
 */
module Nodes {
  import opened Grids

  datatype Node = Root(state: Cell) | Child(state: Cell, parent: Node, action: Action)

  /** A solution as the maze stores it: the actions and the cells after each of them. */
  datatype Solution = Solution(actions: seq<Action>, cells: seq<Cell>)

  /** The number of parent links from a node back to its root. */
  function Depth(n: Node): nat {
    match n
    case Root(_) => 0
    case Child(_, p, _) => 1 + Depth(p)
  }

  /** The actions and cells on the parent chain, oldest first, the root's cell left out. */
  function PathOf(n: Node): (p: Solution)
    ensures |p.actions| == |p.cells| == Depth(n)
  {
    match n
    case Root(_) => Solution([], [])
    case Child(s, parent, a) =>
      var q := PathOf(parent);
      Solution(q.actions + [a], q.cells + [s])
  }

  /**
   * The node was built by the search over g: its root stands on the start
   * and each child on a neighbour of its parent's cell other than the start,
   * reached by its action.
   */
  ghost predicate Linked(g: Grid, n: Node)
    requires Rectangular(g)
  {
    match n
    case Root(s) => s == g.start
    case Child(s, p, a) => s != g.start && Move(a, s) in Neighbors(g, p.state) && Linked(g, p)
  }

  /** The path of a linked node is a walk over free cells from the start to the node's cell. */
  lemma {:induction false} PathIsWalk(g: Grid, n: Node)
    requires Rectangular(g) && Linked(g, n)
    ensures IsWalk(g, g.start, PathOf(n).actions, PathOf(n).cells)
    ensures EndOf(g.start, PathOf(n).cells) == n.state
    ensures g.start !in PathOf(n).cells
  {
    match n
    case Root(_) =>
    case Child(s, p, a) =>
      PathIsWalk(g, p);
      var q := PathOf(p);
      var r := PathOf(n);
      forall i | 0 <= i < |r.cells| ensures MoveAt(g, g.start, r.actions, r.cells, i) {
        if i < |q.cells| {
          assert MoveAt(g, g.start, q.actions, q.cells, i);
          assert Before(g.start, r.cells, i) == Before(g.start, q.cells, i);
        } else {
          assert Before(g.start, r.cells, i) == p.state;
        }
      }
  }

  /** `list.reverse()`: the element at i is the input's element at |s| - 1 - i. */
  function Reversed<T>(s: seq<T>): (r: seq<T>)
    ensures |r| == |s|
    ensures forall i :: 0 <= i < |s| ==> r[i] == s[|s| - 1 - i]
  {
    if s == [] then [] else Reversed(s[1..]) + [s[0]]
  }

  lemma {:induction false} ReversedSnoc<T>(s: seq<T>, x: T)
    ensures Reversed(s + [x]) == [x] + Reversed(s)
  {
    if s != [] {
      assert (s + [x])[1..] == s[1..] + [x];
      ReversedSnoc(s[1..], x);
    }
  }

  /**
   * The reconstruction loop of `solve` and `step`: follow parent links from
   * the goal node, collecting actions and cells, then reverse both lists.
   */
  method Reconstruct(goalNode: Node) returns (sol: Solution)
    ensures sol == PathOf(goalNode)
  {
    var actions: seq<Action> := [];
    var cells: seq<Cell> := [];
    var node := goalNode;
    while node.Child?
      invariant PathOf(node).actions + Reversed(actions) == PathOf(goalNode).actions
      invariant PathOf(node).cells + Reversed(cells) == PathOf(goalNode).cells
      decreases node
    {
      ReversedSnoc(actions, node.action);
      ReversedSnoc(cells, node.state);
      actions := actions + [node.action];
      cells := cells + [node.state];
      node := node.parent;
    }
    sol := Solution(Reversed(actions), Reversed(cells));
  }
}
