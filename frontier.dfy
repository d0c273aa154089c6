/**
 * The four frontier strategies behind one contract: `add`, `remove`,
 * `contains_state` and `empty`. Stack and Queue keep nodes in insertion order
 * and take from the back or the front; Greedy and A* keep (key, node) pairs
 * stably sorted by key and take from the front.
 */
module Frontiers {
  import opened Wrappers
  import opened Grids
  import opened Nodes

  /**
   * A frontier entry. Greedy keys a node by its Manhattan distance to the goal,
   * A* by g + h; Stack and Queue entries carry no priority and have key 0.
   */
  datatype Entry = Entry(key: int, node: Node)

  /** The strategy, with the goal that Greedy and A* measure distances to. */
  datatype Kind = Stack | Queue | Greedy(goal: Cell) | AStar(goal: Cell)

  predicate Keyed(kind: Kind) {
    kind.Greedy? || kind.AStar?
  }

  predicate Sorted(items: seq<Entry>) {
    forall i, j :: 0 <= i < j < |items| ==> items[i].key <= items[j].key
  }

  /** The cells of the held nodes, in list order. */
  function States(items: seq<Entry>): (r: seq<Cell>)
    ensures |r| == |items|
    ensures forall i :: 0 <= i < |items| ==> r[i] == items[i].node.state
  {
    seq(|items|, i requires 0 <= i < |items| => items[i].node.state)
  }

  /** `contains_state`: `any(node.state == state for node in frontier)`. */
  function HasState(items: seq<Entry>, s: Cell): (b: bool)
    ensures b <==> s in States(items)
  {
    if items == [] then false
    else
      assert States(items) == [items[0].node.state] + States(items[1..]);
      items[0].node.state == s || HasState(items[1..], s)
  }

  /** Where a stable sort places a new key: after the leading entries whose key is at most k. */
  function InsertPos(items: seq<Entry>, k: int): (p: nat)
    ensures p <= |items|
    ensures forall i :: 0 <= i < p ==> items[i].key <= k
    ensures p < |items| ==> items[p].key > k
    ensures Sorted(items) ==> forall i :: p <= i < |items| ==> items[i].key > k
  {
    if items == [] || items[0].key > k then 0 else 1 + InsertPos(items[1..], k)
  }

  /** A sorted list with `e` placed after every entry whose key is at most its own. */
  function InsertSorted(items: seq<Entry>, e: Entry): (r: seq<Entry>)
    ensures Sorted(items) ==> Sorted(r)
  {
    var p := InsertPos(items, e.key);
    items[..p] + [e] + items[p..]
  }

  /** Insertion loses nothing and adds only e. */
  lemma InsertMembers(items: seq<Entry>, e: Entry)
    ensures multiset(InsertSorted(items, e)) == multiset(items) + multiset{e}
  {
    var p := InsertPos(items, e.key);
    assert items == items[..p] + items[p..];
  }

  /**
   * A stable sort by key (insertion sort), standing for `list.sort(key=...)`,
   * which Python guarantees to be stable.
   */
  function SortByKey(s: seq<Entry>): (r: seq<Entry>)
    ensures Sorted(r)
  {
    if s == [] then []
    else
      InsertSorted(SortByKey(s[..|s| - 1]), s[|s| - 1])
  }

  /** A key no smaller than every held key goes at the end. */
  lemma InsertPosEnd(items: seq<Entry>, k: int)
    requires forall i :: 0 <= i < |items| ==> items[i].key <= k
    ensures InsertPos(items, k) == |items|
  {
  }

  /** Sorting a sorted list changes nothing. */
  lemma {:induction false} SortedStays(s: seq<Entry>)
    requires Sorted(s)
    ensures SortByKey(s) == s
  {
    if s != [] {
      var front := s[..|s| - 1];
      var last := s[|s| - 1];
      assert Sorted(front) by {
        forall i, j | 0 <= i < j < |front| ensures front[i].key <= front[j].key {
          assert front[i] == s[i] && front[j] == s[j];
        }
      }
      SortedStays(front);
      assert forall i :: 0 <= i < |front| ==> front[i] == s[i];
      InsertPosEnd(front, last.key);
      assert front[..|front|] == front && front[|front|..] == [];
      assert InsertSorted(front, last) == front + [last];
      assert front + [last] == s;
    }
  }

  /** The sort is a permutation. */
  lemma {:induction false} SortPermutes(s: seq<Entry>)
    ensures multiset(SortByKey(s)) == multiset(s)
  {
    if s != [] {
      SortPermutes(s[..|s| - 1]);
      InsertMembers(SortByKey(s[..|s| - 1]), s[|s| - 1]);
      assert s == s[..|s| - 1] + [s[|s| - 1]];
    }
  }

  /** Append-then-sort on a sorted list is the stable insertion of the new entry. */
  lemma AppendThenSort(items: seq<Entry>, e: Entry)
    requires Sorted(items)
    ensures SortByKey(items + [e]) == InsertSorted(items, e)
  {
    var s := items + [e];
    assert s[..|s| - 1] == items && s[|s| - 1] == e;
    SortedStays(items);
  }

  /** The entries of s whose key is k, in their order in s. */
  function WithKey(s: seq<Entry>, k: int): seq<Entry> {
    if s == [] then [] else (if s[0].key == k then [s[0]] else []) + WithKey(s[1..], k)
  }

  lemma {:induction false} WithKeyAppend(a: seq<Entry>, b: seq<Entry>, k: int)
    ensures WithKey(a + b, k) == WithKey(a, k) + WithKey(b, k)
  {
    if a == [] {
      assert a + b == b;
    } else {
      assert (a + b)[0] == a[0] && (a + b)[1..] == a[1..] + b;
      WithKeyAppend(a[1..], b, k);
    }
  }

  lemma {:induction false} WithKeyNone(s: seq<Entry>, k: int)
    requires forall i :: 0 <= i < |s| ==> s[i].key != k
    ensures WithKey(s, k) == []
  {
    if s != [] {
      WithKeyNone(s[1..], k);
    }
  }

  /** Stable insertion puts e after every entry that shares its key. */
  lemma InsertStable(items: seq<Entry>, e: Entry, k: int)
    requires Sorted(items)
    ensures WithKey(InsertSorted(items, e), k) == WithKey(items, k) + (if e.key == k then [e] else [])
  {
    var p := InsertPos(items, e.key);
    assert WithKey([e], k) == (if e.key == k then [e] else []) by {
      assert [e][1..] == [];
    }
    WithKeyAppend(items[..p] + [e], items[p..], k);
    WithKeyAppend(items[..p], [e], k);
    assert items[..p] + items[p..] == items;
    WithKeyAppend(items[..p], items[p..], k);
    if e.key == k {
      WithKeyNone(items[p..], k);
    }
  }

  /**
   * The sort is stable: for every key, the entries with that key come out
   * in the order they went in.
   */
  lemma {:induction false} SortStable(s: seq<Entry>, k: int)
    ensures WithKey(SortByKey(s), k) == WithKey(s, k)
  {
    if s != [] {
      var front := s[..|s| - 1];
      var last := s[|s| - 1];
      SortStable(front, k);
      InsertStable(SortByKey(front), last, k);
      assert s == front + [last];
      WithKeyAppend(front, [last], k);
      assert WithKey([last], k) == (if last.key == k then [last] else []) by {
        assert [last][1..] == [];
      }
    }
  }

  /** The g of an A* insertion: one more than the parent's recorded cost, 0 for the start node. */
  function CostOf(gCosts: map<Cell, int>, n: Node): int
    requires n.Child? ==> n.parent.state in gCosts
  {
    if n.Child? then gCosts[n.parent.state] + 1 else 0
  }

  /** The key `add` gives a node. */
  function KeyOf(kind: Kind, gCosts: map<Cell, int>, n: Node): int
    requires kind.AStar? && n.Child? ==> n.parent.state in gCosts
  {
    match kind
    case Stack => 0
    case Queue => 0
    case Greedy(goal) => Manhattan(n.state, goal)
    case AStar(goal) => CostOf(gCosts, n) + Manhattan(n.state, goal)
  }

  /** `add` on the frontier's list and, for A*, its `g_costs` dictionary. */
  function Push(kind: Kind, items: seq<Entry>, gCosts: map<Cell, int>, n: Node): (seq<Entry>, map<Cell, int>)
    requires kind.AStar? && n.Child? ==> n.parent.state in gCosts
  {
    var e := Entry(KeyOf(kind, gCosts, n), n);
    match kind
    case Stack => (items + [e], gCosts)
    case Queue => (items + [e], gCosts)
    case Greedy(_) => (InsertSorted(items, e), gCosts)
    case AStar(_) => (InsertSorted(items, e), gCosts[n.state := CostOf(gCosts, n)])
  }

  /** `add` for each strategy, spelled out. */
  lemma PushIs(kind: Kind, items: seq<Entry>, gCosts: map<Cell, int>, n: Node)
    requires kind.AStar? && n.Child? ==> n.parent.state in gCosts
    ensures !Keyed(kind) ==> Push(kind, items, gCosts, n) == (items + [Entry(0, n)], gCosts)
    ensures kind.Greedy? ==> Push(kind, items, gCosts, n) == (InsertSorted(items, Entry(Manhattan(n.state, kind.goal), n)), gCosts)
    ensures kind.AStar? ==> var g := CostOf(gCosts, n);
      Push(kind, items, gCosts, n) == (InsertSorted(items, Entry(g + Manhattan(n.state, kind.goal), n)), gCosts[n.state := g])
  {
  }

  /** The index `remove` takes: `pop()` from the back for Stack, `popleft()`/`pop(0)` otherwise. */
  function PopIndex(kind: Kind, items: seq<Entry>): nat
    requires items != []
  {
    if kind.Stack? then |items| - 1 else 0
  }

  /** `remove` on a non-empty frontier: the node taken and the entries left. */
  function Pop(kind: Kind, items: seq<Entry>): (r: (Node, seq<Entry>))
    requires items != []
  {
    var i := PopIndex(kind, items);
    (items[i].node, items[..i] + items[i + 1..])
  }

  /** The per-strategy shape of the list: keys as `add` computes them, sorted for Greedy and A*. */
  ghost predicate Shaped(kind: Kind, items: seq<Entry>, gCosts: map<Cell, int>) {
    match kind
    case Stack => forall e :: e in items ==> e.key == 0
    case Queue => forall e :: e in items ==> e.key == 0
    case Greedy(goal) => Sorted(items) && forall e :: e in items ==> e.key == Manhattan(e.node.state, goal)
    case AStar(_) => Sorted(items) && forall e :: e in items ==> e.node.state in gCosts
  }

  /** Entries with equal keys sit in the order they were added (stamp = addition count). */
  ghost predicate TieOrdered(items: seq<Entry>, stamps: seq<nat>)
    requires |stamps| == |items|
  {
    forall i, j :: 0 <= i < j < |items| && items[i].key == items[j].key ==> stamps[i] < stamps[j]
  }

  /** `add` holds every old entry and the new one, and nothing else. */
  lemma PushMembers(kind: Kind, items: seq<Entry>, gCosts: map<Cell, int>, n: Node)
    requires kind.AStar? && n.Child? ==> n.parent.state in gCosts
    ensures multiset(Push(kind, items, gCosts, n).0) == multiset(items) + multiset{Entry(KeyOf(kind, gCosts, n), n)}
  {
    InsertMembers(items, Entry(KeyOf(kind, gCosts, n), n));
  }

  /** `add` never forgets a recorded cost. */
  lemma PushKeepsCosts(kind: Kind, items: seq<Entry>, gCosts: map<Cell, int>, n: Node, c: Cell)
    requires kind.AStar? && n.Child? ==> n.parent.state in gCosts
    ensures c in gCosts ==> c in Push(kind, items, gCosts, n).1
  {
  }

  /** `remove` takes one entry and keeps all the others. */
  lemma PopMembers(kind: Kind, items: seq<Entry>)
    requires items != []
    ensures multiset(items) == multiset(Pop(kind, items).1) + multiset{items[PopIndex(kind, items)]}
    ensures Pop(kind, items).0 == items[PopIndex(kind, items)].node
  {
    var i := PopIndex(kind, items);
    assert items == items[..i] + [items[i]] + items[i + 1..];
  }

  lemma {:induction false} StatesAppend(a: seq<Entry>, b: seq<Entry>)
    ensures States(a + b) == States(a) + States(b)
  {
    assert |States(a + b)| == |States(a) + States(b)|;
    forall i | 0 <= i < |a + b| ensures States(a + b)[i] == (States(a) + States(b))[i] {
      if i < |a| {
        assert (a + b)[i] == a[i];
      } else {
        assert (a + b)[i] == b[i - |a|];
      }
    }
  }

  /** Putting x at p adds one x to the multiset. */
  lemma SpliceCount(s: seq<Cell>, p: nat, x: Cell)
    requires p <= |s|
    ensures multiset(s[..p] + [x] + s[p..]) == multiset(s) + multiset{x}
  {
    assert s == s[..p] + s[p..];
  }

  /** Taking out the element at i removes one of it from the multiset. */
  lemma CutCount(s: seq<Cell>, i: nat)
    requires i < |s|
    ensures multiset(s) == multiset(s[..i] + s[i + 1..]) + multiset{s[i]}
  {
    assert s == s[..i] + [s[i]] + s[i + 1..];
  }

  lemma StatesSplice(items: seq<Entry>, p: nat, e: Entry)
    requires p <= |items|
    ensures States(items[..p] + [e] + items[p..]) == States(items)[..p] + [e.node.state] + States(items)[p..]
  {
    var r := items[..p] + [e] + items[p..];
    var t := States(items)[..p] + [e.node.state] + States(items)[p..];
    forall i | 0 <= i < |r| ensures States(r)[i] == t[i] {
      if i < p {
        assert r[i] == items[i];
      } else if i > p {
        assert r[i] == items[i - 1];
      }
    }
  }

  lemma StatesCut(items: seq<Entry>, i: nat)
    requires i < |items|
    ensures States(items[..i] + items[i + 1..]) == States(items)[..i] + States(items)[i + 1..]
  {
    var r := items[..i] + items[i + 1..];
    var t := States(items)[..i] + States(items)[i + 1..];
    forall k | 0 <= k < |r| ensures States(r)[k] == t[k] {
      if k < i {
        assert r[k] == items[k];
      } else {
        assert r[k] == items[k + 1];
      }
    }
  }

  /** The cells held after inserting e into a list are the old ones plus e's. */
  lemma InsertStates(items: seq<Entry>, e: Entry)
    ensures multiset(States(InsertSorted(items, e))) == multiset(States(items)) + multiset{e.node.state}
  {
    var p := InsertPos(items, e.key);
    StatesSplice(items, p, e);
    SpliceCount(States(items), p, e.node.state);
  }

  /** The cells held after `add` are the old ones plus the new node's. */
  lemma PushStates(kind: Kind, items: seq<Entry>, gCosts: map<Cell, int>, n: Node)
    requires kind.AStar? && n.Child? ==> n.parent.state in gCosts
    ensures multiset(States(Push(kind, items, gCosts, n).0)) == multiset(States(items)) + multiset{n.state}
  {
    var e := Entry(KeyOf(kind, gCosts, n), n);
    if Keyed(kind) {
      InsertStates(items, e);
    } else {
      StatesAppend(items, [e]);
    }
  }

  /** The cells held before `remove` are those left plus the removed node's. */
  lemma PopStates(kind: Kind, items: seq<Entry>)
    requires items != []
    ensures multiset(States(items)) == multiset(States(Pop(kind, items).1)) + multiset{Pop(kind, items).0.state}
  {
    var i := PopIndex(kind, items);
    StatesCut(items, i);
    CutCount(States(items), i);
  }

  lemma PushShaped(kind: Kind, items: seq<Entry>, gCosts: map<Cell, int>, n: Node)
    requires kind.AStar? && n.Child? ==> n.parent.state in gCosts
    requires Shaped(kind, items, gCosts)
    ensures Shaped(kind, Push(kind, items, gCosts, n).0, Push(kind, items, gCosts, n).1)
  {
    PushMembers(kind, items, gCosts, n);
  }

  lemma PopShaped(kind: Kind, items: seq<Entry>, gCosts: map<Cell, int>)
    requires items != [] && Shaped(kind, items, gCosts)
    ensures Shaped(kind, Pop(kind, items).1, gCosts)
  {
    var rest := Pop(kind, items).1;
    PopMembers(kind, items);
    forall e | e in rest ensures e in items {
      assert e in multiset(rest);
    }
    if Keyed(kind) {
      assert rest == items[1..];
      assert Sorted(rest) by {
        forall i, j | 0 <= i < j < |rest| ensures rest[i].key <= rest[j].key {
          assert rest[i] == items[i + 1] && rest[j] == items[j + 1];
        }
      }
    }
  }

  /**
   * Placing e at p, after the keys at most its own and before the larger
   * ones, with a fresh stamp keeps equal keys in order of addition.
   */
  lemma SpliceTieOrdered(items: seq<Entry>, stamps: seq<nat>, e: Entry, next: nat, p: nat)
    requires p <= |items| && |stamps| == |items| && TieOrdered(items, stamps)
    requires forall i :: 0 <= i < |stamps| ==> stamps[i] < next
    requires forall i :: 0 <= i < p ==> items[i].key <= e.key
    requires forall i :: p <= i < |items| ==> items[i].key > e.key
    ensures TieOrdered(items[..p] + [e] + items[p..], stamps[..p] + [next] + stamps[p..])
  {
    var r := items[..p] + [e] + items[p..];
    var t := stamps[..p] + [next] + stamps[p..];
    forall i, j | 0 <= i < j < |r| && r[i].key == r[j].key ensures t[i] < t[j] {
      if j < p {
        assert r[i] == items[i] && r[j] == items[j] && t[i] == stamps[i] && t[j] == stamps[j];
      } else if p < i {
        assert r[i] == items[i - 1] && r[j] == items[j - 1] && t[i] == stamps[i - 1] && t[j] == stamps[j - 1];
      } else if j == p {
        assert t[j] == next && t[i] == stamps[i];
      }
    }
  }

  /** Adding with a fresh stamp keeps equal keys in order of addition. */
  lemma InsertTieOrdered(items: seq<Entry>, stamps: seq<nat>, e: Entry, next: nat)
    requires Sorted(items) && |stamps| == |items| && TieOrdered(items, stamps)
    requires forall i :: 0 <= i < |stamps| ==> stamps[i] < next
    ensures var p := InsertPos(items, e.key);
      TieOrdered(InsertSorted(items, e), stamps[..p] + [next] + stamps[p..])
  {
    SpliceTieOrdered(items, stamps, e, next, InsertPos(items, e.key));
  }

  /** The proof-only stamps after `add`: the new stamp sits where the entry was placed. */
  ghost function Restamp(kind: Kind, items: seq<Entry>, stamps: seq<nat>, e: Entry, next: nat): seq<nat>
    requires |stamps| == |items|
  {
    if Keyed(kind) then
      var p := InsertPos(items, e.key);
      stamps[..p] + [next] + stamps[p..]
    else stamps + [next]
  }

  /** Every restamped entry predates the following stamp. */
  lemma RestampBounded(kind: Kind, items: seq<Entry>, stamps: seq<nat>, e: Entry, next: nat)
    requires |stamps| == |items|
    requires forall i :: 0 <= i < |stamps| ==> stamps[i] < next
    ensures |Restamp(kind, items, stamps, e, next)| == |items| + 1
    ensures forall i :: 0 <= i < |items| + 1 ==> Restamp(kind, items, stamps, e, next)[i] < next + 1
  {
    var t := Restamp(kind, items, stamps, e, next);
    assert forall i :: 0 <= i < |t| ==> t[i] == next || t[i] in stamps;
  }

  /**
   * What a frontier keeps between calls: its list is shaped for its strategy,
   * every stamp predates the next one handed out, and equal keys are held in
   * order of addition.
   */
  ghost predicate Orderly(kind: Kind, items: seq<Entry>, gCosts: map<Cell, int>, stamps: seq<nat>, next: nat) {
    Shaped(kind, items, gCosts) &&
    |stamps| == |items| &&
    (forall i :: 0 <= i < |stamps| ==> stamps[i] < next) &&
    TieOrdered(items, stamps)
  }

  lemma AppendTieOrdered(items: seq<Entry>, stamps: seq<nat>, e: Entry, next: nat)
    requires |stamps| == |items| && TieOrdered(items, stamps)
    requires forall i :: 0 <= i < |stamps| ==> stamps[i] < next
    ensures TieOrdered(items + [e], stamps + [next])
  {
  }

  lemma PushOrderly(kind: Kind, items: seq<Entry>, gCosts: map<Cell, int>, stamps: seq<nat>, next: nat, n: Node)
    requires kind.AStar? && n.Child? ==> n.parent.state in gCosts
    requires Orderly(kind, items, gCosts, stamps, next)
    ensures var e := Entry(KeyOf(kind, gCosts, n), n);
      Orderly(kind, Push(kind, items, gCosts, n).0, Push(kind, items, gCosts, n).1, Restamp(kind, items, stamps, e, next), next + 1)
  {
    var e := Entry(KeyOf(kind, gCosts, n), n);
    PushShaped(kind, items, gCosts, n);
    RestampBounded(kind, items, stamps, e, next);
    if Keyed(kind) {
      InsertTieOrdered(items, stamps, e, next);
    } else {
      AppendTieOrdered(items, stamps, e, next);
    }
  }

  /** Taking out entry i and its stamp keeps equal keys in order of addition. */
  lemma TieOrderedCut(items: seq<Entry>, stamps: seq<nat>, i: nat)
    requires i < |items| && |stamps| == |items| && TieOrdered(items, stamps)
    ensures TieOrdered(items[..i] + items[i + 1..], stamps[..i] + stamps[i + 1..])
  {
    var r := items[..i] + items[i + 1..];
    var t := stamps[..i] + stamps[i + 1..];
    assert forall k :: 0 <= k < |r| ==> r[k] == items[if k < i then k else k + 1] && t[k] == stamps[if k < i then k else k + 1];
  }

  lemma PopOrderly(kind: Kind, items: seq<Entry>, gCosts: map<Cell, int>, stamps: seq<nat>, next: nat)
    requires items != [] && Orderly(kind, items, gCosts, stamps, next)
    ensures var i := PopIndex(kind, items);
      Orderly(kind, Pop(kind, items).1, gCosts, stamps[..i] + stamps[i + 1..], next)
  {
    var i := PopIndex(kind, items);
    PopShaped(kind, items, gCosts);
    TieOrderedCut(items, stamps, i);
    var t := stamps[..i] + stamps[i + 1..];
    assert forall k :: 0 <= k < |t| ==> t[k] == stamps[if k < i then k else k + 1];
  }

  /**
   * The entry `remove` takes is the best one: for Stack the last added; for
   * the others a smallest key, and the earliest added among equal keys (for
   * Queue all keys are equal, so simply the earliest added).
   */
  lemma OrderlyTakesBest(kind: Kind, items: seq<Entry>, gCosts: map<Cell, int>, stamps: seq<nat>, next: nat)
    requires items != [] && Orderly(kind, items, gCosts, stamps, next)
    ensures kind.Stack? ==> forall i :: 0 <= i < |items| - 1 ==> stamps[i] < stamps[|items| - 1]
    ensures !kind.Stack? ==> forall i :: 1 <= i < |items| ==>
      items[0].key <= items[i].key && (items[0].key == items[i].key ==> stamps[0] < stamps[i])
  {
    assert forall i :: 0 <= i < |items| ==> items[i] in items;
  }

  /** Once the goal's node is held by a Greedy frontier, `remove` returns it first. */
  lemma GreedyTakesGoal(goal: Cell, items: seq<Entry>, gCosts: map<Cell, int>)
    requires Shaped(Greedy(goal), items, gCosts) && goal in States(items)
    ensures items != [] && Pop(Greedy(goal), items).0.state == goal
  {
    var i :| 0 <= i < |items| && States(items)[i] == goal;
    assert items[i] in items;
    assert items[i].key == 0;
    assert items[0] in items;
  }

  lemma InsertIntoEmpty(e: Entry)
    ensures InsertSorted([], e) == [e]
  {
    assert InsertPos([], e.key) == 0;
  }

  /** On an empty frontier of any strategy, `add(n)` then `remove()` gives back n and leaves it empty. */
  lemma AddThenRemove(kind: Kind, gCosts: map<Cell, int>, n: Node)
    requires kind.AStar? && n.Child? ==> n.parent.state in gCosts
    ensures Push(kind, [], gCosts, n).0 != []
    ensures Pop(kind, Push(kind, [], gCosts, n).0) == (n, [])
  {
    var e := Entry(KeyOf(kind, gCosts, n), n);
    InsertIntoEmpty(e);
    assert Push(kind, [], gCosts, n).0 == [e];
    assert [e][..0] + [e][1..] == [];
  }

  /** Stack: add a then b, and `remove` gives b, then a. */
  lemma StackIsLifo(a: Node, b: Node)
    ensures var s := Push(Stack, Push(Stack, [], map[], a).0, map[], b).0;
      s != [] && Pop(Stack, s).0 == b && Pop(Stack, s).1 != [] && Pop(Stack, Pop(Stack, s).1) == (a, [])
  {
    var s := Push(Stack, Push(Stack, [], map[], a).0, map[], b).0;
    assert s == [Entry(0, a), Entry(0, b)];
    assert Pop(Stack, s).1 == [Entry(0, a)];
    assert [Entry(0, a)][..0] + [Entry(0, a)][1..] == [];
  }

  /** Queue: add a then b, and `remove` gives a, then b. */
  lemma QueueIsFifo(a: Node, b: Node)
    ensures var s := Push(Queue, Push(Queue, [], map[], a).0, map[], b).0;
      s != [] && Pop(Queue, s).0 == a && Pop(Queue, s).1 != [] && Pop(Queue, Pop(Queue, s).1) == (b, [])
  {
    var s := Push(Queue, Push(Queue, [], map[], a).0, map[], b).0;
    assert s == [Entry(0, a), Entry(0, b)];
    assert Pop(Queue, s).1 == [Entry(0, b)];
    assert [Entry(0, b)][..0] + [Entry(0, b)][1..] == [];
  }

  /**
   * A frontier object. `stamps` and `added` are bookkeeping of the proof only:
   * `added` counts the `add` calls so far and `stamps[i]` is the count when
   * `items[i]` was added.
   */
  class Frontier {
    const kind: Kind
    var items: seq<Entry>
    var gCosts: map<Cell, int>
    ghost var stamps: seq<nat>
    ghost var added: nat

    ghost predicate Valid()
      reads this
    {
      Orderly(kind, items, gCosts, stamps, added)
    }

    /** `StackFrontier()`. */
    constructor NewStack()
      ensures Valid() && kind == Stack && items == [] && gCosts == map[] && stamps == [] && added == 0
    {
      kind := Stack;
      items := [];
      gCosts := map[];
      stamps := [];
      added := 0;
    }

    /** `QueueFrontier()`. */
    constructor NewQueue()
      ensures Valid() && kind == Queue && items == [] && gCosts == map[] && stamps == [] && added == 0
    {
      kind := Queue;
      items := [];
      gCosts := map[];
      stamps := [];
      added := 0;
    }

    /** `GreedyFrontier(goal)`. */
    constructor NewGreedy(goal: Cell)
      ensures Valid() && kind == Greedy(goal) && items == [] && gCosts == map[] && stamps == [] && added == 0
    {
      kind := Greedy(goal);
      items := [];
      gCosts := map[];
      stamps := [];
      added := 0;
    }

    /** `AStarFrontier(start, goal)`: the start's cost is recorded as 0 from the outset. */
    constructor NewAStar(start: Cell, goal: Cell)
      ensures Valid() && kind == AStar(goal) && items == [] && gCosts == map[start := 0] && stamps == [] && added == 0
    {
      kind := AStar(goal);
      items := [];
      gCosts := map[start := 0];
      stamps := [];
      added := 0;
    }

    /** `empty()`. */
    function IsEmpty(): (b: bool)
      reads this
      ensures b <==> items == []
    {
      |items| == 0
    }

    /** `contains_state(s)`: some held node stands on s. */
    function ContainsState(s: Cell): (b: bool)
      reads this
      ensures b <==> exists i :: 0 <= i < |items| && items[i].node.state == s
    {
      HasState(items, s)
    }

    /**
     * `add(node)`. Stack and Queue append. Greedy and A* append the (key, node)
     * pair and sort the list by key; A* first records g in `g_costs`, and needs
     * the parent's cost to be recorded already (otherwise the lookup raises).
     */
    method Add(n: Node)
      requires Valid()
      requires kind.AStar? && n.Child? ==> n.parent.state in gCosts
      modifies this
      ensures Valid()
      ensures (items, gCosts) == Push(kind, old(items), old(gCosts), n)
      ensures stamps == Restamp(kind, old(items), old(stamps), Entry(KeyOf(kind, old(gCosts), n), n), old(added))
      ensures added == old(added) + 1
    {
      ghost var newStamps := Restamp(kind, items, stamps, Entry(KeyOf(kind, gCosts, n), n), added);
      PushOrderly(kind, items, gCosts, stamps, added, n);
      items, gCosts := Placed(kind, items, gCosts, n);
      stamps := newStamps;
      added := added + 1;
    }

    /** The list and cost table after `add`, per strategy, as the source computes them. */
    static method Placed(kind: Kind, items: seq<Entry>, gCosts: map<Cell, int>, n: Node) returns (items': seq<Entry>, gCosts': map<Cell, int>)
      requires Keyed(kind) ==> Sorted(items)
      requires kind.AStar? && n.Child? ==> n.parent.state in gCosts
      ensures (items', gCosts') == Push(kind, items, gCosts, n)
    {
      PushIs(kind, items, gCosts, n);
      gCosts' := gCosts;
      match kind {
        case Stack =>
          items' := items + [Entry(0, n)];
        case Queue =>
          items' := items + [Entry(0, n)];
        case Greedy(goal) =>
          var priority := Manhattan(n.state, goal);
          var e := Entry(priority, n);
          AppendThenSort(items, e);
          items' := items + [e];
          items' := SortByKey(items');
        case AStar(goal) =>
          var g := if n.Child? then gCosts[n.parent.state] + 1 else 0;
          var h := Manhattan(n.state, goal);
          var e := Entry(g + h, n);
          AppendThenSort(items, e);
          items' := items + [e];
          gCosts' := gCosts[n.state := g];
          items' := SortByKey(items');
      }
    }

    /** `remove` on the list: `pop()` from the back for Stack, from the front otherwise. */
    static method Taken(kind: Kind, items: seq<Entry>) returns (node: Node, rest: seq<Entry>)
      requires items != []
      ensures (node, rest) == Pop(kind, items)
    {
      if kind.Stack? {
        node := items[|items| - 1].node;
        rest := items[..|items| - 1];
        assert rest == items[..|items| - 1] + items[|items|..];
      } else {
        node := items[0].node;
        rest := items[1..];
        assert rest == items[..0] + items[1..];
      }
    }

    /**
     * `remove()`: None on an empty frontier (the source raises "empty frontier").
     * Stack gives the most recently added node; Queue the earliest added;
     * Greedy and A* the smallest key, the earliest added among equal keys.
     */
    method Remove() returns (r: Option<Node>)
      requires Valid()
      modifies this
      ensures Valid() && gCosts == old(gCosts)
      ensures old(items) == [] ==> r == None && items == []
      ensures old(items) != [] ==> r == Some(Pop(kind, old(items)).0) && items == Pop(kind, old(items)).1
      ensures old(items) != [] ==> var i := PopIndex(kind, old(items)); stamps == old(stamps)[..i] + old(stamps)[i + 1..]
      ensures added == old(added)
      ensures kind.Stack? && old(items) != [] ==>
        forall i :: 0 <= i < |old(items)| - 1 ==> old(stamps)[i] < old(stamps)[|old(items)| - 1]
      ensures !kind.Stack? && old(items) != [] ==>
        forall i :: 1 <= i < |old(items)| ==>
          old(items)[0].key <= old(items)[i].key &&
          (old(items)[0].key == old(items)[i].key ==> old(stamps)[0] < old(stamps)[i])
    {
      if IsEmpty() {
        return None;
      }
      OrderlyTakesBest(kind, items, gCosts, stamps, added);
      PopOrderly(kind, items, gCosts, stamps, added);
      ghost var i := PopIndex(kind, items);
      var node, rest := Taken(kind, items);
      items := rest;
      stamps := stamps[..i] + stamps[i + 1..];
      r := Some(node);
    }
  }
}
