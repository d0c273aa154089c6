/**
 * Concrete runs on a three-by-three sample maze: its text parses to the expected
 * grid, a text with two starts is rejected, and the depth-first and breadth-first
 * searches both find the path down, down, right, right.
 */
module Scenarios {
  import opened Wrappers
  import opened Grids
  import opened MazeText
  import opened Nodes
  import opened Frontiers
  import opened Search

  const Sample: string := "A  \n ##\n  B"

  const SampleGrid: Grid := Grid(3, 3, [[false, false, false], [false, true, true], [false, false, false]], Cell(0, 0), Cell(2, 2))

  /** The sample split at its two newlines. */
  lemma SampleSplit()
    ensures SplitOnNewline(Sample) == ["A  ", " ##", "  B"]
  {
    var lines := ["A  ", " ##", "  B"];
    assert Join(lines) == Sample;
    JoinSplit(lines);
  }

  /** The lines of the sample, as the maze reads them. */
  lemma SampleLines()
    ensures Lines(Sample) == ["A  ", " ##", "  B"]
  {
    SampleSplit();
    assert Sample[|Sample| - 1] == 'B';
  }

  /** Only the two '#' characters of the middle line are walls. */
  lemma SampleWalls()
    ensures WallRows(["A  ", " ##", "  B"]) == SampleGrid.walls
  {
    var r := WallRows(["A  ", " ##", "  B"]);
    assert r[0] == [false, false, false];
    assert r[1] == [false, true, true];
    assert r[2] == [false, false, false];
  }

  /** The sample parses with start (0, 0), goal (2, 2) and walls at (1, 1) and (1, 2). */
  lemma SampleParses()
    ensures Parse(Sample) == Success(SampleGrid)
  {
    assert Count(Sample, 'A') == 1;
    assert Count(Sample, 'B') == 1;
    SampleLines();
    SampleWalls();
    var lines := Lines(Sample);
    assert Locate(lines, 'A') == Some(Cell(0, 0));
    assert Locate(lines, 'B') == Some(Cell(2, 2));
    assert MaxLen(lines) == 3;
  }

  /** A text with two 'A' characters is rejected before anything else is read. */
  lemma TwoStartsRejected()
    ensures Parse("AA\n B") == Failure(MarkerCount)
  {
  }

  /** The sample maze meets the requirements of the searches. */
  lemma SampleWellFormed()
    ensures WellFormed(SampleGrid)
  {
  }

  /** The nodes of the searches on the sample, named by their cells. */
  const N00: Node := Root(Cell(0, 0))
  const N10: Node := Child(Cell(1, 0), N00, Down)
  const N01: Node := Child(Cell(0, 1), N00, Right)
  const N02: Node := Child(Cell(0, 2), N01, Right)
  const N20: Node := Child(Cell(2, 0), N10, Down)
  const N21: Node := Child(Cell(2, 1), N20, Right)
  const N22: Node := Child(Cell(2, 2), N21, Right)

  /** The solution both searches store: actions down, down, right, right and the cells they reach. */
  const Path: Solution := Solution([Down, Down, Right, Right], [Cell(1, 0), Cell(2, 0), Cell(2, 1), Cell(2, 2)])

  /** Following the parents of the goal node gives the stored solution. */
  lemma GoalPath()
    ensures PathOf(N22) == Path
  {
  }

  /** The free neighbours of the cells the searches expand. */
  lemma NeighborsOf00()
    ensures Neighbors(SampleGrid, Cell(0, 0)) == [Move(Down, Cell(1, 0)), Move(Right, Cell(0, 1))]
  {
    assert Candidates(Cell(0, 0)) == [Move(Up, Cell(-1, 0)), Move(Down, Cell(1, 0)), Move(Left, Cell(0, -1)), Move(Right, Cell(0, 1))];
  }

  lemma NeighborsOf01()
    ensures Neighbors(SampleGrid, Cell(0, 1)) == [Move(Left, Cell(0, 0)), Move(Right, Cell(0, 2))]
  {
    assert Candidates(Cell(0, 1)) == [Move(Up, Cell(-1, 1)), Move(Down, Cell(1, 1)), Move(Left, Cell(0, 0)), Move(Right, Cell(0, 2))];
  }

  lemma NeighborsOf02()
    ensures Neighbors(SampleGrid, Cell(0, 2)) == [Move(Left, Cell(0, 1))]
  {
    assert Candidates(Cell(0, 2)) == [Move(Up, Cell(-1, 2)), Move(Down, Cell(1, 2)), Move(Left, Cell(0, 1)), Move(Right, Cell(0, 3))];
  }

  lemma NeighborsOf10()
    ensures Neighbors(SampleGrid, Cell(1, 0)) == [Move(Up, Cell(0, 0)), Move(Down, Cell(2, 0))]
  {
    assert Candidates(Cell(1, 0)) == [Move(Up, Cell(0, 0)), Move(Down, Cell(2, 0)), Move(Left, Cell(1, -1)), Move(Right, Cell(1, 1))];
  }

  lemma NeighborsOf20()
    ensures Neighbors(SampleGrid, Cell(2, 0)) == [Move(Up, Cell(1, 0)), Move(Right, Cell(2, 1))]
  {
    assert Candidates(Cell(2, 0)) == [Move(Up, Cell(1, 0)), Move(Down, Cell(3, 0)), Move(Left, Cell(2, -1)), Move(Right, Cell(2, 1))];
  }

  lemma NeighborsOf21()
    ensures Neighbors(SampleGrid, Cell(2, 1)) == [Move(Left, Cell(2, 0)), Move(Right, Cell(2, 2))]
  {
    assert Candidates(Cell(2, 1)) == [Move(Up, Cell(1, 1)), Move(Down, Cell(3, 1)), Move(Left, Cell(2, 0)), Move(Right, Cell(2, 2))];
  }

  /** The states of `solve_dfs` on the sample, after each iteration. */
  const D0: SearchState := SearchState([Entry(0, N00)], map[], {}, 0, None)
  const D1: SearchState := SearchState([Entry(0, N10), Entry(0, N01)], map[], {Cell(0, 0)}, 1, None)
  const D2: SearchState := SearchState([Entry(0, N10), Entry(0, N02)], map[], {Cell(0, 0), Cell(0, 1)}, 2, None)
  const D3: SearchState := SearchState([Entry(0, N10)], map[], {Cell(0, 0), Cell(0, 1), Cell(0, 2)}, 3, None)
  const D4: SearchState := SearchState([Entry(0, N20)], map[], {Cell(0, 0), Cell(0, 1), Cell(0, 2), Cell(1, 0)}, 4, None)
  const D5: SearchState := SearchState([Entry(0, N21)], map[], {Cell(0, 0), Cell(0, 1), Cell(0, 2), Cell(1, 0), Cell(2, 0)}, 5, None)
  const D6: SearchState := SearchState([Entry(0, N22)], map[], {Cell(0, 0), Cell(0, 1), Cell(0, 2), Cell(1, 0), Cell(2, 0), Cell(2, 1)}, 6, None)
  const D7: SearchState := SearchState([], map[], {Cell(0, 0), Cell(0, 1), Cell(0, 2), Cell(1, 0), Cell(2, 0), Cell(2, 1)}, 7, Some(Path))

  /** One iteration of the depth-first search on the sample, per lemma. */
  lemma DfsStep1()
    ensures StepFn(SampleGrid, Stack, D0) == (Expanded([N10, N01]), D1)
  {
    NeighborsOf00();
    assert D0.items == [Entry(0, N00)];
    assert PopIndex(Stack, [Entry(0, N00)]) == 0;
    assert [Entry(0, N00)][..0] + [Entry(0, N00)][1..] == [];
    assert Pop(Stack, D0.items) == (N00, []);
    assert N00.state != SampleGrid.goal;
    assert D0.explored + {Cell(0, 0)} == D1.explored;
    assert AddChildren(Stack, [Entry(0, N10), Entry(0, N01)], map[], {Cell(0, 0)}, N00, []) == ([Entry(0, N10), Entry(0, N01)], map[], []);
    {
      var items, moves := [Entry(0, N10)], [Move(Right, Cell(0, 1))];
      assert moves != [] && moves[0] == Move(Right, Cell(0, 1));
      assert !HasState(items, Cell(0, 1));
      assert Cell(0, 1) !in {Cell(0, 0)};
      assert Child(Cell(0, 1), N00, Right) == N01;
      assert Push(Stack, items, map[], N01) == (items + [Entry(0, N01)], map[]);
      assert moves[1..] == [];
      assert items + [Entry(0, N01)] == [Entry(0, N10), Entry(0, N01)];
      assert AddChildren(Stack, items + [Entry(0, N01)], map[], {Cell(0, 0)}, N00, moves[1..]) == ([Entry(0, N10), Entry(0, N01)], map[], []);
      assert [N01] + [] == [N01];
      assert AddChildren(Stack, items, map[], {Cell(0, 0)}, N00, moves) == ([Entry(0, N10), Entry(0, N01)], map[], [N01]);
    }
    {
      var items, moves := [], [Move(Down, Cell(1, 0)), Move(Right, Cell(0, 1))];
      assert moves != [] && moves[0] == Move(Down, Cell(1, 0));
      assert !HasState(items, Cell(1, 0));
      assert Cell(1, 0) !in {Cell(0, 0)};
      assert Child(Cell(1, 0), N00, Down) == N10;
      assert Push(Stack, items, map[], N10) == (items + [Entry(0, N10)], map[]);
      assert moves[1..] == [Move(Right, Cell(0, 1))];
      assert items + [Entry(0, N10)] == [Entry(0, N10)];
      assert AddChildren(Stack, items + [Entry(0, N10)], map[], {Cell(0, 0)}, N00, moves[1..]) == ([Entry(0, N10), Entry(0, N01)], map[], [N01]);
      assert [N10] + [N01] == [N10, N01];
      assert AddChildren(Stack, items, map[], {Cell(0, 0)}, N00, moves) == ([Entry(0, N10), Entry(0, N01)], map[], [N10, N01]);
    }
  }

  lemma DfsStep2()
    ensures StepFn(SampleGrid, Stack, D1) == (Expanded([N02]), D2)
  {
    NeighborsOf01();
    assert D1.items == [Entry(0, N10), Entry(0, N01)];
    assert PopIndex(Stack, [Entry(0, N10), Entry(0, N01)]) == 1;
    assert [Entry(0, N10), Entry(0, N01)][..1] + [Entry(0, N10), Entry(0, N01)][2..] == [Entry(0, N10)];
    assert Pop(Stack, D1.items) == (N01, [Entry(0, N10)]);
    assert N01.state != SampleGrid.goal;
    assert D1.explored + {Cell(0, 1)} == D2.explored;
    assert AddChildren(Stack, [Entry(0, N10), Entry(0, N02)], map[], {Cell(0, 0), Cell(0, 1)}, N01, []) == ([Entry(0, N10), Entry(0, N02)], map[], []);
    {
      var items, moves := [Entry(0, N10)], [Move(Right, Cell(0, 2))];
      assert moves != [] && moves[0] == Move(Right, Cell(0, 2));
      assert !HasState(items, Cell(0, 2));
      assert Cell(0, 2) !in {Cell(0, 0), Cell(0, 1)};
      assert Child(Cell(0, 2), N01, Right) == N02;
      assert Push(Stack, items, map[], N02) == (items + [Entry(0, N02)], map[]);
      assert moves[1..] == [];
      assert items + [Entry(0, N02)] == [Entry(0, N10), Entry(0, N02)];
      assert AddChildren(Stack, items + [Entry(0, N02)], map[], {Cell(0, 0), Cell(0, 1)}, N01, moves[1..]) == ([Entry(0, N10), Entry(0, N02)], map[], []);
      assert [N02] + [] == [N02];
      assert AddChildren(Stack, items, map[], {Cell(0, 0), Cell(0, 1)}, N01, moves) == ([Entry(0, N10), Entry(0, N02)], map[], [N02]);
    }
    assert AddChildren(Stack, [Entry(0, N10)], map[], {Cell(0, 0), Cell(0, 1)}, N01, [Move(Left, Cell(0, 0)), Move(Right, Cell(0, 2))]) == ([Entry(0, N10), Entry(0, N02)], map[], [N02]);
  }

  lemma DfsStep3()
    ensures StepFn(SampleGrid, Stack, D2) == (Expanded([]), D3)
  {
    NeighborsOf02();
    assert D2.items == [Entry(0, N10), Entry(0, N02)];
    assert PopIndex(Stack, [Entry(0, N10), Entry(0, N02)]) == 1;
    assert [Entry(0, N10), Entry(0, N02)][..1] + [Entry(0, N10), Entry(0, N02)][2..] == [Entry(0, N10)];
    assert Pop(Stack, D2.items) == (N02, [Entry(0, N10)]);
    assert N02.state != SampleGrid.goal;
    assert D2.explored + {Cell(0, 2)} == D3.explored;
    assert AddChildren(Stack, [Entry(0, N10)], map[], {Cell(0, 0), Cell(0, 1), Cell(0, 2)}, N02, []) == ([Entry(0, N10)], map[], []);
    assert AddChildren(Stack, [Entry(0, N10)], map[], {Cell(0, 0), Cell(0, 1), Cell(0, 2)}, N02, [Move(Left, Cell(0, 1))]) == ([Entry(0, N10)], map[], []);
  }

  lemma DfsStep4()
    ensures StepFn(SampleGrid, Stack, D3) == (Expanded([N20]), D4)
  {
    NeighborsOf10();
    assert D3.items == [Entry(0, N10)];
    assert PopIndex(Stack, [Entry(0, N10)]) == 0;
    assert [Entry(0, N10)][..0] + [Entry(0, N10)][1..] == [];
    assert Pop(Stack, D3.items) == (N10, []);
    assert N10.state != SampleGrid.goal;
    assert D3.explored + {Cell(1, 0)} == D4.explored;
    assert AddChildren(Stack, [Entry(0, N20)], map[], {Cell(0, 0), Cell(0, 1), Cell(0, 2), Cell(1, 0)}, N10, []) == ([Entry(0, N20)], map[], []);
    {
      var items, moves := [], [Move(Down, Cell(2, 0))];
      assert moves != [] && moves[0] == Move(Down, Cell(2, 0));
      assert !HasState(items, Cell(2, 0));
      assert Cell(2, 0) !in {Cell(0, 0), Cell(0, 1), Cell(0, 2), Cell(1, 0)};
      assert Child(Cell(2, 0), N10, Down) == N20;
      assert Push(Stack, items, map[], N20) == (items + [Entry(0, N20)], map[]);
      assert moves[1..] == [];
      assert items + [Entry(0, N20)] == [Entry(0, N20)];
      assert AddChildren(Stack, items + [Entry(0, N20)], map[], {Cell(0, 0), Cell(0, 1), Cell(0, 2), Cell(1, 0)}, N10, moves[1..]) == ([Entry(0, N20)], map[], []);
      assert [N20] + [] == [N20];
      assert AddChildren(Stack, items, map[], {Cell(0, 0), Cell(0, 1), Cell(0, 2), Cell(1, 0)}, N10, moves) == ([Entry(0, N20)], map[], [N20]);
    }
    assert AddChildren(Stack, [], map[], {Cell(0, 0), Cell(0, 1), Cell(0, 2), Cell(1, 0)}, N10, [Move(Up, Cell(0, 0)), Move(Down, Cell(2, 0))]) == ([Entry(0, N20)], map[], [N20]);
  }

  lemma DfsStep5()
    ensures StepFn(SampleGrid, Stack, D4) == (Expanded([N21]), D5)
  {
    NeighborsOf20();
    assert D4.items == [Entry(0, N20)];
    assert PopIndex(Stack, [Entry(0, N20)]) == 0;
    assert [Entry(0, N20)][..0] + [Entry(0, N20)][1..] == [];
    assert Pop(Stack, D4.items) == (N20, []);
    assert N20.state != SampleGrid.goal;
    assert D4.explored + {Cell(2, 0)} == D5.explored;
    assert AddChildren(Stack, [Entry(0, N21)], map[], {Cell(0, 0), Cell(0, 1), Cell(0, 2), Cell(1, 0), Cell(2, 0)}, N20, []) == ([Entry(0, N21)], map[], []);
    {
      var items, moves := [], [Move(Right, Cell(2, 1))];
      assert moves != [] && moves[0] == Move(Right, Cell(2, 1));
      assert !HasState(items, Cell(2, 1));
      assert Cell(2, 1) !in {Cell(0, 0), Cell(0, 1), Cell(0, 2), Cell(1, 0), Cell(2, 0)};
      assert Child(Cell(2, 1), N20, Right) == N21;
      assert Push(Stack, items, map[], N21) == (items + [Entry(0, N21)], map[]);
      assert moves[1..] == [];
      assert items + [Entry(0, N21)] == [Entry(0, N21)];
      assert AddChildren(Stack, items + [Entry(0, N21)], map[], {Cell(0, 0), Cell(0, 1), Cell(0, 2), Cell(1, 0), Cell(2, 0)}, N20, moves[1..]) == ([Entry(0, N21)], map[], []);
      assert [N21] + [] == [N21];
      assert AddChildren(Stack, items, map[], {Cell(0, 0), Cell(0, 1), Cell(0, 2), Cell(1, 0), Cell(2, 0)}, N20, moves) == ([Entry(0, N21)], map[], [N21]);
    }
    assert AddChildren(Stack, [], map[], {Cell(0, 0), Cell(0, 1), Cell(0, 2), Cell(1, 0), Cell(2, 0)}, N20, [Move(Up, Cell(1, 0)), Move(Right, Cell(2, 1))]) == ([Entry(0, N21)], map[], [N21]);
  }

  lemma DfsStep6()
    ensures StepFn(SampleGrid, Stack, D5) == (Expanded([N22]), D6)
  {
    NeighborsOf21();
    assert D5.items == [Entry(0, N21)];
    assert PopIndex(Stack, [Entry(0, N21)]) == 0;
    assert [Entry(0, N21)][..0] + [Entry(0, N21)][1..] == [];
    assert Pop(Stack, D5.items) == (N21, []);
    assert N21.state != SampleGrid.goal;
    assert D5.explored + {Cell(2, 1)} == D6.explored;
    assert AddChildren(Stack, [Entry(0, N22)], map[], {Cell(0, 0), Cell(0, 1), Cell(0, 2), Cell(1, 0), Cell(2, 0), Cell(2, 1)}, N21, []) == ([Entry(0, N22)], map[], []);
    {
      var items, moves := [], [Move(Right, Cell(2, 2))];
      assert moves != [] && moves[0] == Move(Right, Cell(2, 2));
      assert !HasState(items, Cell(2, 2));
      assert Cell(2, 2) !in {Cell(0, 0), Cell(0, 1), Cell(0, 2), Cell(1, 0), Cell(2, 0), Cell(2, 1)};
      assert Child(Cell(2, 2), N21, Right) == N22;
      assert Push(Stack, items, map[], N22) == (items + [Entry(0, N22)], map[]);
      assert moves[1..] == [];
      assert items + [Entry(0, N22)] == [Entry(0, N22)];
      assert AddChildren(Stack, items + [Entry(0, N22)], map[], {Cell(0, 0), Cell(0, 1), Cell(0, 2), Cell(1, 0), Cell(2, 0), Cell(2, 1)}, N21, moves[1..]) == ([Entry(0, N22)], map[], []);
      assert [N22] + [] == [N22];
      assert AddChildren(Stack, items, map[], {Cell(0, 0), Cell(0, 1), Cell(0, 2), Cell(1, 0), Cell(2, 0), Cell(2, 1)}, N21, moves) == ([Entry(0, N22)], map[], [N22]);
    }
    assert AddChildren(Stack, [], map[], {Cell(0, 0), Cell(0, 1), Cell(0, 2), Cell(1, 0), Cell(2, 0), Cell(2, 1)}, N21, [Move(Left, Cell(2, 0)), Move(Right, Cell(2, 2))]) == ([Entry(0, N22)], map[], [N22]);
  }

  lemma DfsStep7()
    ensures StepFn(SampleGrid, Stack, D6) == (Reached, D7)
  {
    assert D6.items == [Entry(0, N22)];
    assert PopIndex(Stack, [Entry(0, N22)]) == 0;
    assert [Entry(0, N22)][..0] + [Entry(0, N22)][1..] == [];
    assert Pop(Stack, D6.items) == (N22, []);
    GoalPath();
  }

  /** The first three iterations of the run on the sample, each of which expands a node. */
  lemma DfsOpening()
    ensures WellFormed(SampleGrid) && Inv(SampleGrid, Stack, D3)
    ensures Run(SampleGrid, Stack, Start(SampleGrid, Stack, map[], None)) == Run(SampleGrid, Stack, D3)
  {
    SampleWellFormed();
    assert Start(SampleGrid, Stack, map[], None) == D0;
    DfsStep1();
    RunAfter(SampleGrid, Stack, D0, Expanded([N10, N01]), D1);
    DfsStep2();
    RunAfter(SampleGrid, Stack, D1, Expanded([N02]), D2);
    DfsStep3();
    RunAfter(SampleGrid, Stack, D2, Expanded([]), D3);
  }

  /**
   * `solve_dfs` on the sample: the goal is found by the path down, down,
   * right, right, after seven removals; every free cell but the goal is explored.
   */
  lemma DfsFindsPath()
    ensures var r := Run(SampleGrid, Stack, Start(SampleGrid, Stack, map[], None));
      r.0 && r.1.solution == Some(Path) && r.1.numExplored == 7 &&
      r.1.explored == {Cell(0, 0), Cell(0, 1), Cell(0, 2), Cell(1, 0), Cell(2, 0), Cell(2, 1)}
  {
    DfsOpening();
    DfsStep4();
    RunAfter(SampleGrid, Stack, D3, Expanded([N20]), D4);
    DfsStep5();
    RunAfter(SampleGrid, Stack, D4, Expanded([N21]), D5);
    DfsStep6();
    RunAfter(SampleGrid, Stack, D5, Expanded([N22]), D6);
    DfsStep7();
    RunAfter(SampleGrid, Stack, D6, Reached, D7);
  }

  /** The states of `solve_bfs` on the sample, after each iteration. */
  const Q0: SearchState := SearchState([Entry(0, N00)], map[], {}, 0, None)
  const Q1: SearchState := SearchState([Entry(0, N10), Entry(0, N01)], map[], {Cell(0, 0)}, 1, None)
  const Q2: SearchState := SearchState([Entry(0, N01), Entry(0, N20)], map[], {Cell(0, 0), Cell(1, 0)}, 2, None)
  const Q3: SearchState := SearchState([Entry(0, N20), Entry(0, N02)], map[], {Cell(0, 0), Cell(0, 1), Cell(1, 0)}, 3, None)
  const Q4: SearchState := SearchState([Entry(0, N02), Entry(0, N21)], map[], {Cell(0, 0), Cell(0, 1), Cell(1, 0), Cell(2, 0)}, 4, None)
  const Q5: SearchState := SearchState([Entry(0, N21)], map[], {Cell(0, 0), Cell(0, 1), Cell(0, 2), Cell(1, 0), Cell(2, 0)}, 5, None)
  const Q6: SearchState := SearchState([Entry(0, N22)], map[], {Cell(0, 0), Cell(0, 1), Cell(0, 2), Cell(1, 0), Cell(2, 0), Cell(2, 1)}, 6, None)
  const Q7: SearchState := SearchState([], map[], {Cell(0, 0), Cell(0, 1), Cell(0, 2), Cell(1, 0), Cell(2, 0), Cell(2, 1)}, 7, Some(Path))

  /** One iteration of the breadth-first search on the sample, per lemma. */
  lemma BfsStep1()
    ensures StepFn(SampleGrid, Queue, Q0) == (Expanded([N10, N01]), Q1)
  {
    NeighborsOf00();
    assert Q0.items == [Entry(0, N00)];
    assert PopIndex(Queue, [Entry(0, N00)]) == 0;
    assert [Entry(0, N00)][..0] + [Entry(0, N00)][1..] == [];
    assert Pop(Queue, Q0.items) == (N00, []);
    assert N00.state != SampleGrid.goal;
    assert Q0.explored + {Cell(0, 0)} == Q1.explored;
    assert AddChildren(Queue, [Entry(0, N10), Entry(0, N01)], map[], {Cell(0, 0)}, N00, []) == ([Entry(0, N10), Entry(0, N01)], map[], []);
    {
      var items, moves := [Entry(0, N10)], [Move(Right, Cell(0, 1))];
      assert moves != [] && moves[0] == Move(Right, Cell(0, 1));
      assert !HasState(items, Cell(0, 1));
      assert Cell(0, 1) !in {Cell(0, 0)};
      assert Child(Cell(0, 1), N00, Right) == N01;
      assert Push(Queue, items, map[], N01) == (items + [Entry(0, N01)], map[]);
      assert moves[1..] == [];
      assert items + [Entry(0, N01)] == [Entry(0, N10), Entry(0, N01)];
      assert AddChildren(Queue, items + [Entry(0, N01)], map[], {Cell(0, 0)}, N00, moves[1..]) == ([Entry(0, N10), Entry(0, N01)], map[], []);
      assert [N01] + [] == [N01];
      assert AddChildren(Queue, items, map[], {Cell(0, 0)}, N00, moves) == ([Entry(0, N10), Entry(0, N01)], map[], [N01]);
    }
    {
      var items, moves := [], [Move(Down, Cell(1, 0)), Move(Right, Cell(0, 1))];
      assert moves != [] && moves[0] == Move(Down, Cell(1, 0));
      assert !HasState(items, Cell(1, 0));
      assert Cell(1, 0) !in {Cell(0, 0)};
      assert Child(Cell(1, 0), N00, Down) == N10;
      assert Push(Queue, items, map[], N10) == (items + [Entry(0, N10)], map[]);
      assert moves[1..] == [Move(Right, Cell(0, 1))];
      assert items + [Entry(0, N10)] == [Entry(0, N10)];
      assert AddChildren(Queue, items + [Entry(0, N10)], map[], {Cell(0, 0)}, N00, moves[1..]) == ([Entry(0, N10), Entry(0, N01)], map[], [N01]);
      assert [N10] + [N01] == [N10, N01];
      assert AddChildren(Queue, items, map[], {Cell(0, 0)}, N00, moves) == ([Entry(0, N10), Entry(0, N01)], map[], [N10, N01]);
    }
  }

  lemma BfsStep2()
    ensures StepFn(SampleGrid, Queue, Q1) == (Expanded([N20]), Q2)
  {
    NeighborsOf10();
    assert Q1.items == [Entry(0, N10), Entry(0, N01)];
    assert PopIndex(Queue, [Entry(0, N10), Entry(0, N01)]) == 0;
    assert [Entry(0, N10), Entry(0, N01)][..0] + [Entry(0, N10), Entry(0, N01)][1..] == [Entry(0, N01)];
    assert Pop(Queue, Q1.items) == (N10, [Entry(0, N01)]);
    assert N10.state != SampleGrid.goal;
    assert Q1.explored + {Cell(1, 0)} == Q2.explored;
    assert AddChildren(Queue, [Entry(0, N01), Entry(0, N20)], map[], {Cell(0, 0), Cell(1, 0)}, N10, []) == ([Entry(0, N01), Entry(0, N20)], map[], []);
    {
      var items, moves := [Entry(0, N01)], [Move(Down, Cell(2, 0))];
      assert moves != [] && moves[0] == Move(Down, Cell(2, 0));
      assert !HasState(items, Cell(2, 0));
      assert Cell(2, 0) !in {Cell(0, 0), Cell(1, 0)};
      assert Child(Cell(2, 0), N10, Down) == N20;
      assert Push(Queue, items, map[], N20) == (items + [Entry(0, N20)], map[]);
      assert moves[1..] == [];
      assert items + [Entry(0, N20)] == [Entry(0, N01), Entry(0, N20)];
      assert AddChildren(Queue, items + [Entry(0, N20)], map[], {Cell(0, 0), Cell(1, 0)}, N10, moves[1..]) == ([Entry(0, N01), Entry(0, N20)], map[], []);
      assert [N20] + [] == [N20];
      assert AddChildren(Queue, items, map[], {Cell(0, 0), Cell(1, 0)}, N10, moves) == ([Entry(0, N01), Entry(0, N20)], map[], [N20]);
    }
    assert AddChildren(Queue, [Entry(0, N01)], map[], {Cell(0, 0), Cell(1, 0)}, N10, [Move(Up, Cell(0, 0)), Move(Down, Cell(2, 0))]) == ([Entry(0, N01), Entry(0, N20)], map[], [N20]);
  }

  lemma BfsStep3()
    ensures StepFn(SampleGrid, Queue, Q2) == (Expanded([N02]), Q3)
  {
    NeighborsOf01();
    assert Q2.items == [Entry(0, N01), Entry(0, N20)];
    assert PopIndex(Queue, [Entry(0, N01), Entry(0, N20)]) == 0;
    assert [Entry(0, N01), Entry(0, N20)][..0] + [Entry(0, N01), Entry(0, N20)][1..] == [Entry(0, N20)];
    assert Pop(Queue, Q2.items) == (N01, [Entry(0, N20)]);
    assert N01.state != SampleGrid.goal;
    assert Q2.explored + {Cell(0, 1)} == Q3.explored;
    assert AddChildren(Queue, [Entry(0, N20), Entry(0, N02)], map[], {Cell(0, 0), Cell(0, 1), Cell(1, 0)}, N01, []) == ([Entry(0, N20), Entry(0, N02)], map[], []);
    {
      var items, moves := [Entry(0, N20)], [Move(Right, Cell(0, 2))];
      assert moves != [] && moves[0] == Move(Right, Cell(0, 2));
      assert !HasState(items, Cell(0, 2));
      assert Cell(0, 2) !in {Cell(0, 0), Cell(0, 1), Cell(1, 0)};
      assert Child(Cell(0, 2), N01, Right) == N02;
      assert Push(Queue, items, map[], N02) == (items + [Entry(0, N02)], map[]);
      assert moves[1..] == [];
      assert items + [Entry(0, N02)] == [Entry(0, N20), Entry(0, N02)];
      assert AddChildren(Queue, items + [Entry(0, N02)], map[], {Cell(0, 0), Cell(0, 1), Cell(1, 0)}, N01, moves[1..]) == ([Entry(0, N20), Entry(0, N02)], map[], []);
      assert [N02] + [] == [N02];
      assert AddChildren(Queue, items, map[], {Cell(0, 0), Cell(0, 1), Cell(1, 0)}, N01, moves) == ([Entry(0, N20), Entry(0, N02)], map[], [N02]);
    }
    assert AddChildren(Queue, [Entry(0, N20)], map[], {Cell(0, 0), Cell(0, 1), Cell(1, 0)}, N01, [Move(Left, Cell(0, 0)), Move(Right, Cell(0, 2))]) == ([Entry(0, N20), Entry(0, N02)], map[], [N02]);
  }

  lemma BfsStep4()
    ensures StepFn(SampleGrid, Queue, Q3) == (Expanded([N21]), Q4)
  {
    NeighborsOf20();
    assert Q3.items == [Entry(0, N20), Entry(0, N02)];
    assert PopIndex(Queue, [Entry(0, N20), Entry(0, N02)]) == 0;
    assert [Entry(0, N20), Entry(0, N02)][..0] + [Entry(0, N20), Entry(0, N02)][1..] == [Entry(0, N02)];
    assert Pop(Queue, Q3.items) == (N20, [Entry(0, N02)]);
    assert N20.state != SampleGrid.goal;
    assert Q3.explored + {Cell(2, 0)} == Q4.explored;
    assert AddChildren(Queue, [Entry(0, N02), Entry(0, N21)], map[], {Cell(0, 0), Cell(0, 1), Cell(1, 0), Cell(2, 0)}, N20, []) == ([Entry(0, N02), Entry(0, N21)], map[], []);
    {
      var items, moves := [Entry(0, N02)], [Move(Right, Cell(2, 1))];
      assert moves != [] && moves[0] == Move(Right, Cell(2, 1));
      assert !HasState(items, Cell(2, 1));
      assert Cell(2, 1) !in {Cell(0, 0), Cell(0, 1), Cell(1, 0), Cell(2, 0)};
      assert Child(Cell(2, 1), N20, Right) == N21;
      assert Push(Queue, items, map[], N21) == (items + [Entry(0, N21)], map[]);
      assert moves[1..] == [];
      assert items + [Entry(0, N21)] == [Entry(0, N02), Entry(0, N21)];
      assert AddChildren(Queue, items + [Entry(0, N21)], map[], {Cell(0, 0), Cell(0, 1), Cell(1, 0), Cell(2, 0)}, N20, moves[1..]) == ([Entry(0, N02), Entry(0, N21)], map[], []);
      assert [N21] + [] == [N21];
      assert AddChildren(Queue, items, map[], {Cell(0, 0), Cell(0, 1), Cell(1, 0), Cell(2, 0)}, N20, moves) == ([Entry(0, N02), Entry(0, N21)], map[], [N21]);
    }
    assert AddChildren(Queue, [Entry(0, N02)], map[], {Cell(0, 0), Cell(0, 1), Cell(1, 0), Cell(2, 0)}, N20, [Move(Up, Cell(1, 0)), Move(Right, Cell(2, 1))]) == ([Entry(0, N02), Entry(0, N21)], map[], [N21]);
  }

  lemma BfsStep5()
    ensures StepFn(SampleGrid, Queue, Q4) == (Expanded([]), Q5)
  {
    NeighborsOf02();
    assert Q4.items == [Entry(0, N02), Entry(0, N21)];
    assert PopIndex(Queue, [Entry(0, N02), Entry(0, N21)]) == 0;
    assert [Entry(0, N02), Entry(0, N21)][..0] + [Entry(0, N02), Entry(0, N21)][1..] == [Entry(0, N21)];
    assert Pop(Queue, Q4.items) == (N02, [Entry(0, N21)]);
    assert N02.state != SampleGrid.goal;
    assert Q4.explored + {Cell(0, 2)} == Q5.explored;
    assert AddChildren(Queue, [Entry(0, N21)], map[], {Cell(0, 0), Cell(0, 1), Cell(0, 2), Cell(1, 0), Cell(2, 0)}, N02, []) == ([Entry(0, N21)], map[], []);
    assert AddChildren(Queue, [Entry(0, N21)], map[], {Cell(0, 0), Cell(0, 1), Cell(0, 2), Cell(1, 0), Cell(2, 0)}, N02, [Move(Left, Cell(0, 1))]) == ([Entry(0, N21)], map[], []);
  }

  lemma BfsStep6()
    ensures StepFn(SampleGrid, Queue, Q5) == (Expanded([N22]), Q6)
  {
    NeighborsOf21();
    assert Q5.items == [Entry(0, N21)];
    assert PopIndex(Queue, [Entry(0, N21)]) == 0;
    assert [Entry(0, N21)][..0] + [Entry(0, N21)][1..] == [];
    assert Pop(Queue, Q5.items) == (N21, []);
    assert N21.state != SampleGrid.goal;
    assert Q5.explored + {Cell(2, 1)} == Q6.explored;
    assert AddChildren(Queue, [Entry(0, N22)], map[], {Cell(0, 0), Cell(0, 1), Cell(0, 2), Cell(1, 0), Cell(2, 0), Cell(2, 1)}, N21, []) == ([Entry(0, N22)], map[], []);
    {
      var items, moves := [], [Move(Right, Cell(2, 2))];
      assert moves != [] && moves[0] == Move(Right, Cell(2, 2));
      assert !HasState(items, Cell(2, 2));
      assert Cell(2, 2) !in {Cell(0, 0), Cell(0, 1), Cell(0, 2), Cell(1, 0), Cell(2, 0), Cell(2, 1)};
      assert Child(Cell(2, 2), N21, Right) == N22;
      assert Push(Queue, items, map[], N22) == (items + [Entry(0, N22)], map[]);
      assert moves[1..] == [];
      assert items + [Entry(0, N22)] == [Entry(0, N22)];
      assert AddChildren(Queue, items + [Entry(0, N22)], map[], {Cell(0, 0), Cell(0, 1), Cell(0, 2), Cell(1, 0), Cell(2, 0), Cell(2, 1)}, N21, moves[1..]) == ([Entry(0, N22)], map[], []);
      assert [N22] + [] == [N22];
      assert AddChildren(Queue, items, map[], {Cell(0, 0), Cell(0, 1), Cell(0, 2), Cell(1, 0), Cell(2, 0), Cell(2, 1)}, N21, moves) == ([Entry(0, N22)], map[], [N22]);
    }
    assert AddChildren(Queue, [], map[], {Cell(0, 0), Cell(0, 1), Cell(0, 2), Cell(1, 0), Cell(2, 0), Cell(2, 1)}, N21, [Move(Left, Cell(2, 0)), Move(Right, Cell(2, 2))]) == ([Entry(0, N22)], map[], [N22]);
  }

  lemma BfsStep7()
    ensures StepFn(SampleGrid, Queue, Q6) == (Reached, Q7)
  {
    assert Q6.items == [Entry(0, N22)];
    assert PopIndex(Queue, [Entry(0, N22)]) == 0;
    assert [Entry(0, N22)][..0] + [Entry(0, N22)][1..] == [];
    assert Pop(Queue, Q6.items) == (N22, []);
    GoalPath();
  }


  /** The first three iterations of the run on the sample, each of which expands a node. */
  lemma BfsOpening()
    ensures WellFormed(SampleGrid) && Inv(SampleGrid, Queue, Q3)
    ensures Run(SampleGrid, Queue, Start(SampleGrid, Queue, map[], None)) == Run(SampleGrid, Queue, Q3)
  {
    SampleWellFormed();
    assert Start(SampleGrid, Queue, map[], None) == Q0;
    BfsStep1();
    RunAfter(SampleGrid, Queue, Q0, Expanded([N10, N01]), Q1);
    BfsStep2();
    RunAfter(SampleGrid, Queue, Q1, Expanded([N20]), Q2);
    BfsStep3();
    RunAfter(SampleGrid, Queue, Q2, Expanded([N02]), Q3);
  }

  /**
   * `solve_bfs` on the sample: the same path, after seven removals.
   */
  lemma BfsFindsPath()
    ensures var r := Run(SampleGrid, Queue, Start(SampleGrid, Queue, map[], None));
      r.0 && r.1.solution == Some(Path) && r.1.numExplored == 7 &&
      r.1.explored == {Cell(0, 0), Cell(0, 1), Cell(0, 2), Cell(1, 0), Cell(2, 0), Cell(2, 1)}
  {
    BfsOpening();
    BfsStep4();
    RunAfter(SampleGrid, Queue, Q3, Expanded([N21]), Q4);
    BfsStep5();
    RunAfter(SampleGrid, Queue, Q4, Expanded([]), Q5);
    BfsStep6();
    RunAfter(SampleGrid, Queue, Q5, Expanded([N22]), Q6);
    BfsStep7();
    RunAfter(SampleGrid, Queue, Q6, Reached, Q7);
  }

}
