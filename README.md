# Grid-maze search engine, modelled in Dafny

The repository is a small pygame program that loads a text maze and solves it.
It also animates a player token walking the path it finds. Its core is a
search engine, which appears in two near-duplicate files:

- `laberinto.py` parses the maze text and lists a cell's neighbours. It keeps a
  stack or queue frontier and runs a `solve` loop to completion. This is
  depth-first or breadth-first search with duplicate suppression, an explored
  set, a removal counter and path reconstruction over parent links. It also
  moves the player one cell at a time.
- `laberintoFinal.py` adds a Greedy frontier and an A* frontier. Both are lists
  kept stably sorted by a key: the Manhattan distance to the goal for Greedy,
  and g + h with a `g_costs` table for A*. Here `solve` only resets the search
  fields and pushes the start node. `step` runs one iteration of the loop, and
  the GUI calls it once per frame.

The model follows the same split:

| module | file | what it holds |
|---|---|---|
| `Grids` | grid.dfy | cells, actions, the static maze, `neighbors`, walks, reachability |
| `MazeText` | maze_text.dfy | `Maze.__init__` on the file's text: counting, splitting into lines, walls, start and goal |
| `Nodes` | nodes.dfy | search nodes as an immutable parent chain; the reconstruction loop |
| `Frontiers` | frontier.dfy | the four strategies as pure list operations, and the `Frontier` class that updates its list (and A*'s cost table) in place |
| `Search` | search.dfy | one loop iteration as a function (`StepFn`), the loop invariant (`Inv`), and the whole run (`Run`) with termination, soundness and completeness |
| `Mazes` | maze.dfy | the `Maze` class: `solve`, `step`, the reset-only `solve`, the `solve_*` entry points and `move_player`, each proved to compute the functions above |
| `Scenarios` | scenarios.dfy | the three-by-three sample maze, parsed and solved by both searches |

A node is created once and only points at its parent. It is therefore a
datatype value (`Root` or `Child`): the parent chain is acyclic by construction,
and following it terminates. The frontier is one class tagged with its
strategy. Stack and Queue entries carry key 0. Greedy and A* insert each new
entry after every entry whose key is at most its own. `AppendThenSort` proves
that this insertion equals Python's append followed by `list.sort(key=...)`,
and `SortStable` proves that sort stable, as Python's is.

Three behaviours of the program are worth knowing before reading the contracts:

- `laberinto.py`'s `solve` does not reset `solution`. A failed run leaves the
  solution of an earlier run in place (`Mazes.Maze.Solve` states this).
- `step` in `laberintoFinal.py` replaces `frontier_nodes` only when it expands a
  node. A step that reaches the goal, or finds the frontier empty, leaves the
  previous list in place (`Mazes.Maze.Step` states this).
- Rows of different lengths are not padded. `width` is the longest line, and
  `neighbors` and `move_player` read `walls[r][c]` for any `c < width`. So
  testing a cell past the end of a short row raises an error rather than
  acting as a wall. Whether that happens depends on which cells a search or a
  move happens to test. The model does not track it: it requires rows of
  equal length wherever walls are read (see "Left out").

## Model

| member | source | states |
|---|---|---|
| Grids.Direction | laberinto.py:111-116 | the direction table: a known name gives the action of that name; any other string gives no move |
| Grids.Manhattan | laberintoFinal.py:60 | the heuristic is never negative and is zero exactly when the two cells are equal |
| Grids.KeepPassable | laberinto.py:75 | the filter never returns more moves than it is given |
| Grids.KeptMoves | laberinto.py:75 | a move is kept iff it is among the candidates and its cell is in bounds and not a wall; the candidates' order is kept |
| Grids.Neighbors | laberinto.py:72-75 | at most four neighbours are returned |
| Grids.CandidatesCover | laberinto.py:74 | the candidate list holds one move per direction, in the order up, down, left, right, each to the cell at distance 1 in that direction |
| Grids.NeighborMoves | laberinto.py:72-75 | soundness: each neighbour is in bounds, not a wall, at distance 1 and labelled with the action whose delta reaches it; completeness: each direction whose cell is free is listed; order: up, down, left, right |
| Grids.WalkSteps | laberinto.py:97-99 | each step of a walk of neighbour moves applies its action's delta and lands on a free cell |
| Grids.WalkStaysInside | laberinto.py:83-101 | a walk that starts inside a set closed under `neighbors` never leaves it |
| Grids.ClosedSeparates | laberinto.py:83-101 | a closed set that holds the start but not the goal proves the goal unreachable |
| MazeText.SplitOnNewline | laberinto.py:61 | one more line than there are newlines, and no line contains a newline |
| MazeText.WallRow | laberinto.py:65 | one entry per character, a wall iff the character is not ' ', 'A' or 'B' |
| MazeText.WallRows | laberinto.py:65 | one wall row per line, each built from that line |
| MazeText.MaxLen | laberinto.py:63 | the width bounds every line's length and equals some line's length |
| MazeText.IndexOf | laberinto.py:66 | the index found is the first that holds the character; none is found only when it does not occur |
| MazeText.Locate | laberinto.py:66-67 | the position found is the first, in row-then-column order, that holds the character, as the `[0]` of the source's comprehension; none only when no line holds it |
| MazeText.Parse | laberinto.py:58-67 | fails iff 'A' or 'B' does not occur exactly once in the whole text; on success the grid has one row per line, the longest line as width, walls per character, and start and goal at the only 'A' and the only 'B', hence free and distinct when rows are even |
| MazeText.BuiltGridDescribes | laberinto.py:62-67 | the grid built from the lines describes them as `Parse` promises |
| MazeText.OnlyPosition | laberinto.py:66-67 | a character counted once stands at one position only, so taking the first match takes the only one |
| MazeText.SplitCount | laberinto.py:58-61 | splitting at newlines keeps the count of every other character |
| MazeText.LinesCount | laberinto.py:58-61 | counting 'A' or 'B' in the text or in its lines gives the same number |
| MazeText.SplitEndsEmpty | laberinto.py:61 | a final newline leaves an empty last piece, which the line split drops |
| MazeText.SplitJoin | laberinto.py:61 | joining the pieces with newlines gives the text back |
| MazeText.JoinSplit | laberinto.py:61 | splitting newline-free lines joined with newlines gives the lines back |
| MazeText.LinesRoundTrip | laberinto.py:61 | the lines hold no newline, and joining them (plus a final newline, if the text had one) gives the text back |
| Nodes.PathOf | laberinto.py:86-93 | the path has as many actions as cells, one per parent link |
| Nodes.PathIsWalk | laberinto.py:86-99 | the path of a node built by the search is a walk of neighbour moves from the start that ends on the node's cell, and the start cell is not among its cells |
| Nodes.Reversed | laberinto.py:92 | `reverse()`: same length, and element i of the result is the input's element counted i places from its end |
| Nodes.Reconstruct | laberinto.py:87-93 | the parent-walking loop, followed by the two reversals, computes the node's path |
| Frontiers.States | laberinto.py:24-25 | the cells of the held nodes, in list order |
| Frontiers.HasState | laberinto.py:24-25 | `contains_state` holds iff some held node stands on the cell |
| Frontiers.InsertPos | laberintoFinal.py:61-62 | the new entry goes after every entry whose key is at most its own, and before a larger key |
| Frontiers.InsertSorted | laberintoFinal.py:61-62 | insertion keeps the list sorted |
| Frontiers.InsertMembers | laberintoFinal.py:61-62 | insertion adds exactly the new entry |
| Frontiers.SortByKey | laberintoFinal.py:62 | the sort by key gives a sorted list |
| Frontiers.InsertStable | laberintoFinal.py:61-62 | inserting an entry puts it after every entry with the same key and keeps their order |
| Frontiers.SortStable | laberintoFinal.py:62 | the sort is stable: for every key, the entries with that key come out in the order they went in |
| Frontiers.SortedStays | laberintoFinal.py:62 | the stable sort leaves an already sorted list unchanged |
| Frontiers.SortPermutes | laberintoFinal.py:62 | the sort is a permutation |
| Frontiers.AppendThenSort | laberintoFinal.py:61-62 | append followed by the stable sort equals insertion after every entry with a key at most the new one |
| Frontiers.PushMembers | laberintoFinal.py:59-89 | `add` adds exactly one entry, for the given node |
| Frontiers.PushKeepsCosts | laberintoFinal.py:88 | `add` never drops a cell from A*'s cost table |
| Frontiers.PopMembers | laberintoFinal.py:70-73 | `remove` takes out exactly the entry it returns |
| Frontiers.PushStates | laberinto.py:21-22 | after `add`, the held cells are the old ones plus the node's cell |
| Frontiers.PopStates | laberinto.py:30-33 | after `remove`, the held cells are the remaining ones plus the returned node's cell |
| Frontiers.PushShaped | laberintoFinal.py:59-62 | `add` keeps Greedy and A* lists sorted, with correct keys |
| Frontiers.PopShaped | laberintoFinal.py:70-73 | `remove` keeps the list's shape |
| Frontiers.PushOrderly | laberintoFinal.py:59-62 | `add` keeps entries with equal keys in the order they were added |
| Frontiers.PopOrderly | laberintoFinal.py:70-73 | `remove` keeps entries with equal keys in the order they were added |
| Frontiers.OrderlyTakesBest | laberintoFinal.py:70-73 | Stack removes the latest entry added; the others remove a minimum key, the earliest added among equal keys |
| Frontiers.GreedyTakesGoal | laberintoFinal.py:60-73 | once a goal node is in a Greedy frontier, the next `remove` returns a goal node |
| Frontiers.AddThenRemove | laberinto.py:21-33 | on an empty frontier, `add(n)` then `remove()` gives `n` and leaves it empty, for every strategy |
| Frontiers.StackIsLifo | laberinto.py:17-33 | adding a then b to a stack, `remove` gives b, then a |
| Frontiers.QueueIsFifo | laberinto.py:35-51 | adding a then b to a queue, `remove` gives a, then b |
| Frontiers.Frontier.NewStack | laberinto.py:18-19 | an empty stack, with no `add` recorded yet |
| Frontiers.Frontier.NewQueue | laberinto.py:36-37 | an empty queue, with no `add` recorded yet |
| Frontiers.Frontier.NewGreedy | laberintoFinal.py:55-57 | an empty Greedy frontier for the goal, with no `add` recorded yet |
| Frontiers.Frontier.NewAStar | laberintoFinal.py:77-81 | an empty A* frontier whose cost table is {start: 0}, with no `add` recorded yet |
| Frontiers.Frontier.IsEmpty | laberinto.py:27-28 | `empty` holds iff no node is held |
| Frontiers.Frontier.ContainsState | laberinto.py:24-25 | `contains_state(s)` holds iff some held node has state s |
| Frontiers.Frontier.Add | laberintoFinal.py:83-89 | the list and cost table become those of `add` for the strategy; the new entry carries the next insertion number and is placed after every held entry of an equal key, so the equal-key order is kept |
| Frontiers.Frontier.Placed | laberintoFinal.py:59-62 | append then sort (plus A*'s cost record) computes `add` |
| Frontiers.Frontier.Taken | laberinto.py:30-33 | `pop()` or `pop(0)` computes `remove` |
| Frontiers.Frontier.Remove | laberintoFinal.py:97-100 | an empty frontier gives no node; otherwise the node `remove` picks, with the strategy's order: for Stack the most recently added, for the others a minimum key and the earliest added among ties; the other entries keep their insertion numbers |
| Search.PoppedHasCost | laberintoFinal.py:84 | the node A* removes has its cost recorded, so adding its children cannot fail |
| Search.Start | laberinto.py:78-81 | the state after pushing the start node meets the loop invariant |
| Search.StartHolds | laberinto.py:79-80 | the frontier then holds only the start node, and A*'s cost for it is 0 |
| Search.StartInv | laberinto.py:78-81 | the loop invariant holds before the first iteration |
| Search.RunAfter | laberinto.py:83-99 | an empty frontier ends the run with False, the goal ends it with True, and any other iteration keeps the invariant, shrinks the measure and leaves the run's result unchanged |
| Search.PushDistinct | laberinto.py:98-99 | adding a cell not yet held keeps every held cell distinct |
| Search.PushDepths | laberintoFinal.py:84-88 | A*'s recorded g for each held cell stays equal to its node's depth |
| Search.PushOk | laberinto.py:98-99 | adding a new neighbour keeps the frontier part of the invariant; the start, being explored or held, is never such a neighbour |
| Search.AddChildrenOk | laberinto.py:97-99 | the children loop keeps the frontier part of the invariant |
| Search.PushKeepsStates | laberinto.py:99 | `add` keeps every held cell and adds the node's |
| Search.AddChildrenKeeps | laberinto.py:97-99 | the children loop keeps every held cell |
| Search.AddChildrenReaches | laberinto.py:97-99 | after the children loop, every neighbour is explored or held |
| Search.AddChildrenGrows | laberintoFinal.py:152-156 | the children loop adds to the frontier exactly the cells of the children reported in `frontier_nodes`, one entry each, and nothing else |
| Search.AddChildrenAdds | laberintoFinal.py:152-156 | each reported child has the expanded node as parent, comes from one of its neighbour moves, and is on an unexplored cell |
| Search.AddChildrenInOrder | laberintoFinal.py:152-156 | the children are reported in the order of the moves |
| Search.StepChildren | laberintoFinal.py:149-156 | the `frontier_nodes` of an expanding step are children of the removed node by its neighbour moves, on cells unexplored before the step, in the order up, down, left, right |
| Search.PopDistinct | laberinto.py:84 | `remove` keeps held cells distinct and takes the returned cell out |
| Search.RemovedOk | laberinto.py:84-96 | the removed node was built by the search and is on a free, unexplored cell (with its A* cost equal to its depth) |
| Search.ExpandCovered | laberinto.py:96-99 | after an expansion, every neighbour of an explored cell is explored or held |
| Search.ExpandedFrontierOk | laberinto.py:96-99 | expansion keeps the frontier distinct, disjoint from the explored set and built by the search |
| Search.ExpandedCovered | laberinto.py:96-99 | expansion keeps the explored set covered, and keeps the start explored or held |
| Search.ExpandedInv | laberinto.py:96-99 | expansion keeps the whole loop invariant, on a new free cell |
| Search.StepExpandedInv | laberinto.py:83-99 | an iteration that expands keeps the invariant, strictly grows the explored set and shrinks the unexplored free cells |
| Search.StepReached | laberinto.py:86-94 | soundness: when the goal is removed, the stored solution has at least one cell and is a walk of neighbour moves from the start ending on the goal that never returns to the start, and the count is the explored set's size plus one |
| Search.StepExhausted | laberinto.py:83-101 | completeness: when the frontier empties, the goal is unreachable from the start |
| Search.Run | laberinto.py:83-101 | the loop terminates; it returns True iff the goal is reachable; on True the solution is a walk from the start ending on the goal, with the start not among its cells; on False the frontier is empty and the solution untouched; the explored set only grows and the count is its size (plus one on success) |
| Search.RunUnfolds | laberinto.py:83-99 | the run is the first iteration followed by the run from its state |
| Search.StepIgnoresSolution | laberintoFinal.py:134-158 | an iteration neither reads nor changes a stored solution unless it stores a new one |
| Search.RunIgnoresSolution | laberintoFinal.py:160-169 | the run's outcome, frontier, explored set and count do not depend on the solution stored before it, and neither does a found solution; so resetting `solution` first changes nothing else, and two runs on the same maze store the same solution |
| Search.AStarCostIsDepth | laberintoFinal.py:81-88 | under the invariant, A*'s recorded g for each held cell equals its node's number of parent links, and its key is g + h |
| Mazes.Maze.constructor | laberintoFinal.py:117-122 | the player starts on the start cell; the search fields start empty: no solution, count 0, no explored cell, `solution_found` false, no `frontier_nodes` |
| Mazes.Maze.Load | laberinto.py:54-70 | construction fails iff 'A' or 'B' does not occur exactly once; otherwise the maze holds the grid the text describes, with the player on the start cell |
| Mazes.Maze.Expand | laberintoFinal.py:152-156 | the children loop leaves the frontier as the pure children fold does and returns the children added, in order |
| Mazes.Maze.ExpandMove | laberintoFinal.py:153-156 | one pass of the children loop does what the fold does for that move |
| Mazes.Maze.Advance | laberinto.py:84-99 | one loop iteration changes the search fields and frontier exactly as `StepFn` says |
| Mazes.Maze.Solve | laberinto.py:77-101 | `solve` computes the run from the start state: True iff the goal is reachable, a valid walk to the goal that excludes the start cell when True, the earlier solution kept when False, the count equal to the explored set's size (plus one on success) |
| Mazes.Maze.Search | laberinto.py:83-101 | the `while` loop computes the run from its current state |
| Mazes.Maze.BeginSolve | laberintoFinal.py:160-169 | the reset-only `solve` clears the count, explored set, solution, flag and `frontier_nodes`, and pushes the start node |
| Mazes.Maze.Step | laberintoFinal.py:130-158 | `step` does one iteration: on an empty frontier it returns False and changes nothing; on the goal it stores the path, sets `solution_found` and returns True; otherwise `frontier_nodes` becomes exactly the children added and it returns False |
| Mazes.Maze.SolveStepwise | laberintoFinal.py:160-169 | the reset-only `solve` followed by `step` until True or an empty frontier gives the outcome, frontier, explored set and count of laberinto.py's `solve`, and its solution when one is found |
| Mazes.Maze.StepAll | laberintoFinal.py:318-319 | calling `step` until it returns True computes the whole run, and `solution_found` is the outcome; the GUI keeps calling `step` on an empty frontier, and the loop stops there instead, which changes nothing since `Mazes.Maze.Step` proves such a step leaves every field as it was |
| Mazes.Maze.SolveDfs | laberinto.py:103-104 | `solve_dfs` is the run with a fresh stack: True iff the goal is reachable; the player, `solution_found` and `frontier_nodes` are left unchanged |
| Mazes.Maze.SolveBfs | laberinto.py:106-107 | `solve_bfs` is the run with a fresh queue: True iff the goal is reachable; the player, `solution_found` and `frontier_nodes` are left unchanged |
| Mazes.Maze.BeginDfs | laberintoFinal.py:171-173 | resets the search fields; the fresh stack is dropped |
| Mazes.Maze.BeginBfs | laberintoFinal.py:175-177 | resets the search fields; the fresh queue is dropped |
| Mazes.Maze.BeginGreedy | laberintoFinal.py:179-182 | resets the search fields; the fresh Greedy frontier is dropped |
| Mazes.Maze.BeginAStar | laberintoFinal.py:184-187 | resets the search fields; the fresh A* frontier is dropped |
| Mazes.Maze.MovePlayer | laberinto.py:109-118 | the player moves to the cell one step in the named direction iff that cell is in bounds and not a wall; otherwise, and for an unknown name, it stays; so it always stands on a free cell |
| Scenarios.SampleSplit | laberinto.py:61 | the sample text splits into its three lines |
| Scenarios.SampleLines | laberinto.py:61 | the sample has the lines "A  ", " ##" and "  B" |
| Scenarios.SampleWalls | laberinto.py:65 | the sample's walls are (1, 1) and (1, 2) |
| Scenarios.SampleParses | laberinto.py:58-67 | the sample parses to the 3x3 maze with start (0, 0) and goal (2, 2) |
| Scenarios.TwoStartsRejected | laberinto.py:58-59 | a text with two 'A' characters is rejected |
| Scenarios.GoalPath | laberinto.py:87-93 | the path rebuilt from the goal node is down, down, right, right through (1,0), (2,0), (2,1), (2,2) |
| Scenarios.DfsFindsPath | laberinto.py:103-104 | `solve_dfs` on the sample returns True with that solution, after seven removals |
| Scenarios.BfsFindsPath | laberinto.py:106-107 | `solve_bfs` on the sample returns True with that solution, after seven removals |

## Left out

- The pygame window, drawing, images, dropdown menus, timers and the animation of the player along the solution are rendering and event handling, not search logic.
- Screen-size code (`calculate_cell_size` and the display's size) is a rendering concern.
- File reading: `Mazes.Maze.Load` takes the file's text instead of a file name.
- Line splitting breaks only at '\n'. Python's `splitlines` also breaks at '\r', '\v', '\f', '\x1c', '\x1d', '\x1e', '\x85', '\u2028' and '\u2029'. The model assumes the text holds none of these.
- Exception messages: a failed construction is `Failure(MarkerCount)` and `remove` on an empty frontier gives `None`. No message strings are modelled.
- Mazes.Maze.Load: it requires rows of equal length whenever parsing succeeds, so the model rejects every ragged maze. That includes ragged mazes the source loads and even solves without error, because its `neighbors` never tests a cell past a short row's end on them. The source raises only when a cell past a row's end is actually tested, by `neighbors` during a search or by `move_player`. The model does not track which ragged mazes reach such a test.
- Frontiers.Frontier.Add: for A*, the parent's cost must be recorded. The source raises `KeyError` otherwise, and the model makes this a precondition. The search always meets it (`Search.PoppedHasCost`).
- Mazes.Maze.Solve: it requires an empty frontier, as every caller in the source passes a new one.
- Mazes.Maze.BeginGreedy: the frontier built by `solve_greedy` (and by `solve_a_star`, `solve_dfs` and `solve_bfs` in laberintoFinal.py) is dropped after the reset, as in the source. The GUI then steps some other frontier variable. That wiring is GUI code and is not modelled, so no claim is made that the GUI runs Greedy or A*.
- The Greedy and A* searches are proved terminating, sound and complete by the same invariant as DFS and BFS. No concrete run of them on the sample is spelled out.
- Optimality of BFS or A* is not claimed. The driver never re-inserts or re-costs a cell that is already held.
- The fields `height` and `width` are part of the `Grid` value and are never modified, as in the source.
