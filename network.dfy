/**
 * The desert network: a table of nodes, each with a left and a right
 * neighbour, walked by following a cyclic tape of L/R instructions.
 */
module Network {
  import opened Common
  import opened Text

  // ---------------------------------------------------------------------
  // gcd
  // ---------------------------------------------------------------------

  /** `d` divides `n`; only 0 is a multiple of 0. */
  predicate Divides(d: nat, n: nat) {
    if d == 0 then n == 0 else n % d == 0
  }

  /** `gcd`: Euclid's algorithm; the second argument strictly decreases. */
  function Gcd(a: nat, b: nat): (g: nat)
    ensures g == 0 <==> a == 0 && b == 0
    decreases b
  {
    if b == 0 then a else Gcd(b, a % b)
  }

  /** Euclidean division is unique: a remainder in range pins down `x % d`. */
  lemma ModUnique(x: int, d: int, q: int, m: int)
    requires d > 0 && 0 <= m < d && x == d * q + m
    ensures x % d == m
  {
    var t := q - x / d;
    assert x == d * (x / d) + x % d;
    assert d * t == x % d - m by {
      assert d * t == d * q - d * (x / d);
    }
  }

  /** A divisor of `b` divides `a` exactly when it divides `a % b`. */
  lemma DividesRemainder(d: nat, a: nat, b: nat)
    requires d > 0 && b > 0 && Divides(d, b)
    ensures Divides(d, a) <==> Divides(d, a % b)
  {
    var q, k := a / b, b / d;
    assert a == b * q + a % b;
    assert b == d * k;
    assert B: b * q == d * (k * q) by {
      assert b * q == (d * k) * q;
    }
    if Divides(d, a) {
      var j := a / d;
      assert a == d * j;
      assert a % b == d * (j - k * q) by {
        assert a % b == a - b * q;
        assert d * (j - k * q) == d * j - d * (k * q);
      }
      ModUnique(a % b, d, j - k * q, 0);
    }
    if Divides(d, a % b) {
      var m := (a % b) / d;
      assert a % b == d * m;
      assert a == d * (k * q + m) by {
        assert d * (k * q + m) == d * (k * q) + d * m;
      }
      ModUnique(a, d, k * q + m, 0);
    }
  }

  /** The gcd divides both arguments. */
  lemma {:induction false} GcdDivides(a: nat, b: nat)
    ensures Divides(Gcd(a, b), a) && Divides(Gcd(a, b), b)
    decreases b
  {
    if b > 0 {
      GcdDivides(b, a % b);
      var g := Gcd(b, a % b);
      if g > 0 {
        DividesRemainder(g, a, b);
      }
    }
  }

  /** Every common divisor of the arguments divides the gcd, so it is the greatest one. */
  lemma {:induction false} GcdGreatest(a: nat, b: nat, d: nat)
    requires d > 0 && Divides(d, a) && Divides(d, b)
    ensures Divides(d, Gcd(a, b))
    decreases b
  {
    if b > 0 {
      DividesRemainder(d, a, b);
      GcdGreatest(b, a % b, d);
    }
  }

  // ---------------------------------------------------------------------
  // Nodes and the node table
  // ---------------------------------------------------------------------

  datatype Direction = L | R

  datatype MapNode = MapNode(id: string, left: Option<string>, right: Option<string>)

  /** `MapNode::new`: both neighbours present. */
  function NewMapNode(id: string, left: string, right: string): (n: MapNode)
    ensures n.id == id && n.left == Some(left) && n.right == Some(right)
  {
    MapNode(id, Some(left), Some(right))
  }

  /** `MapNodeTree`: nodes keyed by their id. */
  class MapNodeTree {
    var nodes: map<string, MapNode>

    /** Every node is filed under its own id. */
    predicate Valid()
      reads this
    {
      forall id :: id in nodes ==> nodes[id].id == id
    }

    constructor ()
      ensures nodes == map[] && Valid()
    {
      nodes := map[];
    }

    /** `get_node`: the node filed under `id`; a missing id panics. */
    function GetNode(id: string): (n: MapNode)
      reads this
      requires id in nodes
      ensures n == nodes[id]
      ensures Valid() ==> n.id == id
    {
      nodes[id]
    }

    /** `insert_node`: files `node` under its id, replacing any node already there, and returns the id. */
    method InsertNode(node: MapNode) returns (id: string)
      requires Valid()
      modifies this
      ensures Valid()
      ensures nodes == old(nodes)[node.id := node] && id == node.id
    {
      nodes := nodes[node.id := node];
      id := node.id;
    }
  }

  /** The table that inserting `ns` in order builds: the last node with an id wins. */
  function NodeTable(ns: seq<MapNode>): map<string, MapNode> {
    if ns == [] then map[] else NodeTable(ns[..|ns| - 1])[ns[|ns| - 1].id := ns[|ns| - 1]]
  }

  /** `ns[i]` is the last node in `ns` whose id is `id`. */
  ghost predicate LastWithId(ns: seq<MapNode>, id: string, i: int) {
    0 <= i < |ns| && ns[i].id == id && forall j :: i < j < |ns| ==> ns[j].id != id
  }

  lemma {:induction false} NodeTableHas(ns: seq<MapNode>, id: string)
    ensures id in NodeTable(ns) <==> exists i :: 0 <= i < |ns| && ns[i].id == id
  {
    if ns != [] {
      var front := ns[..|ns| - 1];
      NodeTableHas(front, id);
      if ns[|ns| - 1].id != id && exists i :: 0 <= i < |ns| && ns[i].id == id {
        var i :| 0 <= i < |ns| && ns[i].id == id;
        assert front[i] == ns[i];
      }
    }
  }

  lemma {:induction false} NodeTableLast(ns: seq<MapNode>, id: string)
    requires id in NodeTable(ns)
    ensures exists i :: LastWithId(ns, id, i) && NodeTable(ns)[id] == ns[i]
  {
    var front := ns[..|ns| - 1];
    if ns[|ns| - 1].id == id {
      assert LastWithId(ns, id, |ns| - 1);
    } else {
      NodeTableLast(front, id);
      var i :| LastWithId(front, id, i) && NodeTable(front)[id] == front[i];
      assert ns[i] == front[i];
      assert LastWithId(ns, id, i);
    }
  }

  /** An id is in the table exactly when some node has it, and then the table holds the last such node. */
  lemma NodeTableLastWins(ns: seq<MapNode>, id: string)
    ensures id in NodeTable(ns) <==> exists i :: 0 <= i < |ns| && ns[i].id == id
    ensures id in NodeTable(ns) ==>
      (exists i :: 0 <= i < |ns| && NodeTable(ns)[id] == ns[i] && ns[i].id == id && forall j :: i < j < |ns| ==> ns[j].id != id)
  {
    NodeTableHas(ns, id);
    if id in NodeTable(ns) {
      NodeTableLast(ns, id);
    }
  }

  /** The fold in the solvers: a fresh tree, then `insert_node` for each parsed node in order. */
  method BuildTree(ns: seq<MapNode>) returns (tree: MapNodeTree)
    ensures fresh(tree) && tree.Valid() && tree.nodes == NodeTable(ns)
  {
    tree := new MapNodeTree();
    for i := 0 to |ns|
      invariant tree.Valid() && tree.nodes == NodeTable(ns[..i])
    {
      assert ns[..i + 1][..i] == ns[..i];
      var _ := tree.InsertNode(ns[i]);
    }
    assert ns[..|ns|] == ns;
  }

  // ---------------------------------------------------------------------
  // Walking the network
  // ---------------------------------------------------------------------

  /** One move from `id`; `None` where the source panics (no such node, or no neighbour that way). */
  function Step(table: map<string, MapNode>, id: string, d: Direction): Option<string> {
    if id !in table then None
    else match d
      case L => table[id].left
      case R => table[id].right
  }

  /** Where the walk from `start` is after `k` moves, instruction `j` being `dirs[j % |dirs|]`. */
  function Walk(table: map<string, MapNode>, dirs: seq<Direction>, start: string, k: nat): Option<string>
    requires |dirs| > 0
  {
    if k == 0 then Some(start)
    else match Walk(table, dirs, start, k - 1)
      case None => None
      case Some(id) => Step(table, id, dirs[(k - 1) % |dirs|])
  }

  /** A walk that gets stuck stays stuck. */
  lemma {:induction false} WalkStuck(table: map<string, MapNode>, dirs: seq<Direction>, start: string, j: nat, k: nat)
    requires |dirs| > 0 && j <= k && Walk(table, dirs, start, j) == None
    ensures Walk(table, dirs, start, k) == None
    decreases k - j
  {
    if j < k {
      WalkStuck(table, dirs, start, j, k - 1);
    }
  }

  /**
   * `calculate_steps_to_way_out`, after parsing: walk from "AAA" until "ZZZ"
   * and count the moves. The source loops forever or panics unless the walk
   * reaches "ZZZ"; that is what the caller must guarantee.
   */
  method StepsToWayOut(dirs: seq<Direction>, tree: MapNodeTree) returns (steps: nat)
    requires |dirs| > 0
    requires exists k :: Walk(tree.nodes, dirs, "AAA", k) == Some("ZZZ")
    ensures Walk(tree.nodes, dirs, "AAA", steps) == Some("ZZZ")
    ensures forall j :: 0 <= j < steps ==> Walk(tree.nodes, dirs, "AAA", j) != Some("ZZZ")
    ensures steps >= 1
  {
    ghost var goal: nat :| Walk(tree.nodes, dirs, "AAA", goal) == Some("ZZZ");
    var current := "AAA";
    steps := 0;
    while current != "ZZZ"
      invariant steps <= goal
      invariant Walk(tree.nodes, dirs, "AAA", steps) == Some(current)
      invariant forall j :: 0 <= j < steps ==> Walk(tree.nodes, dirs, "AAA", j) != Some("ZZZ")
      decreases goal - steps
    {
      if steps == goal {
        assert false;
      }
      var direction := dirs[steps % |dirs|];
      if Walk(tree.nodes, dirs, "AAA", steps + 1) == None {
        WalkStuck(tree.nodes, dirs, "AAA", steps + 1, goal);
        assert false;
      }
      var node := tree.GetNode(current);
      current := match direction
        case L => node.left.value
        case R => node.right.value;
      steps := steps + 1;
    }
    assert "AAA" != "ZZZ";
  }

  // ---------------------------------------------------------------------
  // Part 2: several walkers at once
  // ---------------------------------------------------------------------

  predicate EndsWithZ(id: string) { |id| > 0 && id[|id| - 1] == 'Z' }

  /** The index of the first walker standing on a "..Z" node, if any. */
  function FirstZ(ids: seq<string>): (r: Option<nat>)
    ensures r.Some? ==> r.value < |ids|
  {
    if ids == [] then None
    else if EndsWithZ(ids[0]) then Some(0)
    else match FirstZ(ids[1..])
      case None => None
      case Some(z) => Some(z + 1)
  }

  /** `FirstZ` finds the first walker on a "..Z" node, and finds none only when there is none. */
  lemma {:induction false} FirstZFinds(ids: seq<string>)
    ensures FirstZ(ids).Some? ==> EndsWithZ(ids[FirstZ(ids).value])
    ensures FirstZ(ids).Some? ==> forall j :: 0 <= j < FirstZ(ids).value ==> !EndsWithZ(ids[j])
    ensures FirstZ(ids).None? ==> forall j :: 0 <= j < |ids| ==> !EndsWithZ(ids[j])
  {
    if ids != [] && !EndsWithZ(ids[0]) {
      FirstZFinds(ids[1..]);
      assert forall j :: 1 <= j < |ids| ==> ids[1..][j - 1] == ids[j];
    }
  }

  /** Every walker moved one step; `None` if any of them cannot move. */
  function AdvanceAll(table: map<string, MapNode>, ids: seq<string>, d: Direction): (r: Option<seq<string>>)
    ensures r.Some? ==> |r.value| == |ids|
  {
    if ids == [] then Some([])
    else
      var rest := AdvanceAll(table, ids[1..], d);
      match Step(table, ids[0], d)
      case None => None
      case Some(next) =>
        if rest.None? then None else Some([next] + rest.value)
  }

  /** Moving every walker succeeds exactly when each one can move, and then moves each one by `Step`. */
  lemma {:induction false} AdvanceAllSteps(table: map<string, MapNode>, ids: seq<string>, d: Direction)
    ensures AdvanceAll(table, ids, d).Some? <==> forall j :: 0 <= j < |ids| ==> Step(table, ids[j], d).Some?
    ensures AdvanceAll(table, ids, d).Some? ==>
      forall j :: 0 <= j < |ids| ==> Some(AdvanceAll(table, ids, d).value[j]) == Step(table, ids[j], d)
  {
    if ids != [] {
      AdvanceAllSteps(table, ids[1..], d);
      assert forall j :: 1 <= j < |ids| ==> ids[1..][j - 1] == ids[j];
    }
  }

  datatype Walkers = Walkers(ids: seq<string>, loopSizes: map<string, nat>)

  /**
   * One pass of the part-2 `for` loop at step `i`: walkers are moved in order
   * until the first one on a "..Z" node, which is recorded with `i` and
   * removed; the pass then stops, so the walkers after it do not move.
   */
  function Round(table: map<string, MapNode>, w: Walkers, d: Direction, i: nat): Option<Walkers> {
    match FirstZ(w.ids)
    case None =>
      (match AdvanceAll(table, w.ids, d)
       case None => None
       case Some(moved) => Some(Walkers(moved, w.loopSizes)))
    case Some(z) =>
      (match AdvanceAll(table, w.ids[..z], d)
       case None => None
       case Some(moved) => Some(Walkers(moved + w.ids[z + 1..], w.loopSizes[w.ids[z] := i])))
  }

  /** A pass removes at most one walker, exactly when one stands on a "..Z" node, and records it with the step. */
  lemma RoundRemovesAtMostOne(table: map<string, MapNode>, w: Walkers, d: Direction, i: nat)
    requires Round(table, w, d, i).Some?
    ensures FirstZ(w.ids).None? ==>
      (|Round(table, w, d, i).value.ids| == |w.ids| && Round(table, w, d, i).value.loopSizes == w.loopSizes)
    ensures FirstZ(w.ids).Some? ==>
      (|Round(table, w, d, i).value.ids| == |w.ids| - 1
       && Round(table, w, d, i).value.loopSizes == w.loopSizes[w.ids[FirstZ(w.ids).value] := i])
  {
  }

  /** The walkers after `n` passes, starting from `w` at step 0. */
  function Rounds(table: map<string, MapNode>, dirs: seq<Direction>, w: Walkers, n: nat): Option<Walkers>
    requires |dirs| > 0
  {
    if n == 0 then Some(w)
    else match Rounds(table, dirs, w, n - 1)
      case None => None
      case Some(w') => Round(table, w', dirs[(n - 1) % |dirs|], n - 1)
  }

  lemma {:induction false} RoundsStuck(table: map<string, MapNode>, dirs: seq<Direction>, w: Walkers, j: nat, k: nat)
    requires |dirs| > 0 && j <= k && Rounds(table, dirs, w, j) == None
    ensures Rounds(table, dirs, w, k) == None
    decreases k - j
  {
    if j < k {
      RoundsStuck(table, dirs, w, j, k - 1);
    }
  }

  predicate Finished(r: Option<Walkers>) { r.Some? && r.value.ids == [] }

  /** No pass before the `k`-th left the walkers finished. */
  ghost predicate RunningBefore(table: map<string, MapNode>, dirs: seq<Direction>, w0: Walkers, k: nat)
    requires |dirs| > 0
  {
    k == 0 || (RunningBefore(table, dirs, w0, k - 1) && !Finished(Rounds(table, dirs, w0, k - 1)))
  }

  lemma {:induction false} RunningBeforeAll(table: map<string, MapNode>, dirs: seq<Direction>, w0: Walkers, k: nat)
    requires |dirs| > 0 && RunningBefore(table, dirs, w0, k)
    ensures forall n :: 0 <= n < k ==> !Finished(Rounds(table, dirs, w0, n))
  {
    if k > 0 {
      RunningBeforeAll(table, dirs, w0, k - 1);
    }
  }

  /** The pass after `n` passes is the `n`-th one. */
  lemma RoundsNext(table: map<string, MapNode>, dirs: seq<Direction>, w0: Walkers, n: nat, w: Walkers, w': Walkers)
    requires |dirs| > 0 && Rounds(table, dirs, w0, n) == Some(w)
    requires Round(table, w, dirs[n % |dirs|], n) == Some(w')
    ensures Rounds(table, dirs, w0, n + 1) == Some(w')
  {
  }

  /** Before the passes finish, the next pass succeeds and is the one the step count selects. */
  lemma RoundsAdvance(table: map<string, MapNode>, dirs: seq<Direction>, w0: Walkers, goal: nat, n: nat, w: Walkers)
    requires |dirs| > 0 && Finished(Rounds(table, dirs, w0, goal))
    requires n <= goal && Rounds(table, dirs, w0, n) == Some(w) && |w.ids| > 0
    ensures n < goal
    ensures Round(table, w, dirs[n % |dirs|], n).Some?
  {
    if Rounds(table, dirs, w0, n + 1) == None {
      RoundsStuck(table, dirs, w0, n + 1, goal);
    }
  }

  /** A pass the loop runs keeps the loop's invariant: one more pass done, none of them finished. */
  lemma RoundsStep(table: map<string, MapNode>, dirs: seq<Direction>, w0: Walkers, goal: nat, n: nat, w: Walkers, w': Walkers)
    requires |dirs| > 0 && Finished(Rounds(table, dirs, w0, goal))
    requires n < goal && Rounds(table, dirs, w0, n) == Some(w) && |w.ids| > 0
    requires RunningBefore(table, dirs, w0, n)
    requires Round(table, w, dirs[n % |dirs|], n) == Some(w')
    ensures n + 1 <= goal
    ensures Rounds(table, dirs, w0, n + 1) == Some(w')
    ensures RunningBefore(table, dirs, w0, n + 1)
  {
    RoundsNext(table, dirs, w0, n, w, w');
  }

  /** Moving every walker succeeds with `out` when each one's step is the matching element of `out`. */
  lemma AdvanceAllIs(table: map<string, MapNode>, ids: seq<string>, d: Direction, out: seq<string>)
    requires |out| == |ids|
    requires forall j :: 0 <= j < |ids| ==> Step(table, ids[j], d) == Some(out[j])
    ensures AdvanceAll(table, ids, d) == Some(out)
  {
    AdvanceAllSteps(table, ids, d);
    var r := AdvanceAll(table, ids, d);
    assert r.Some?;
    assert forall j :: 0 <= j < |ids| ==> r.value[j] == out[j];
    assert r.value == out;
  }

  /** In a pass that succeeds, every walker before the first "..Z" one can move. */
  lemma RoundCanStep(table: map<string, MapNode>, w: Walkers, d: Direction, i: nat, idx: nat)
    requires Round(table, w, d, i).Some?
    requires idx < |w.ids| && forall j :: 0 <= j <= idx ==> !EndsWithZ(w.ids[j])
    ensures Step(table, w.ids[idx], d).Some?
  {
    FirstZFinds(w.ids);
    match FirstZ(w.ids)
    case None =>
      AdvanceAllSteps(table, w.ids, d);
    case Some(z) =>
      AdvanceAllSteps(table, w.ids[..z], d);
      assert w.ids[..z][idx] == w.ids[idx];
  }

  /** A pass that reaches a "..Z" walker at `idx` removes it, records it with the step, and keeps the moves made before it. */
  lemma RoundRemovesAt(table: map<string, MapNode>, w: Walkers, d: Direction, i: nat, idx: nat, ids: seq<string>)
    requires idx < |ids| == |w.ids| && EndsWithZ(w.ids[idx])
    requires forall j :: 0 <= j < idx ==> !EndsWithZ(w.ids[j])
    requires forall j :: 0 <= j < idx ==> Step(table, w.ids[j], d) == Some(ids[j])
    requires ids[idx..] == w.ids[idx..]
    ensures Round(table, w, d, i) == Some(Walkers(ids[..idx] + ids[idx + 1..], w.loopSizes[w.ids[idx] := i]))
  {
    FirstZFinds(w.ids);
    assert FirstZ(w.ids) == Some(idx);
    AdvanceAllIs(table, w.ids[..idx], d, ids[..idx]);
    assert ids[idx + 1..] == w.ids[idx + 1..] by {
      assert ids[idx + 1..] == ids[idx..][1..];
      assert w.ids[idx + 1..] == w.ids[idx..][1..];
    }
  }

  /** A pass with no "..Z" walker moves every walker. */
  lemma RoundMovesAll(table: map<string, MapNode>, w: Walkers, d: Direction, i: nat, ids: seq<string>)
    requires |ids| == |w.ids|
    requires forall j :: 0 <= j < |ids| ==> !EndsWithZ(w.ids[j])
    requires forall j :: 0 <= j < |ids| ==> Step(table, w.ids[j], d) == Some(ids[j])
    ensures Round(table, w, d, i) == Some(Walkers(ids, w.loopSizes))
  {
    FirstZFinds(w.ids);
    assert FirstZ(w.ids).None?;
    AdvanceAllIs(table, w.ids, d, ids);
  }

  /** The body of the part-2 `for` loop, on the walkers of one pass. */
  method RunRound(tree: MapNodeTree, ghost table: map<string, MapNode>, w: Walkers, d: Direction, i: nat) returns (w': Walkers)
    requires table == tree.nodes && Round(table, w, d, i).Some?
    ensures Round(table, w, d, i) == Some(w')
  {
    var ids := w.ids;
    var idx := 0;
    while idx < |ids|
      invariant 0 <= idx <= |ids| == |w.ids|
      invariant forall j :: 0 <= j < idx ==> !EndsWithZ(w.ids[j])
      invariant forall j :: 0 <= j < idx ==> Step(table, w.ids[j], d) == Some(ids[j])
      invariant ids[idx..] == w.ids[idx..]
    {
      var id := ids[idx];
      assert id == w.ids[idx];
      if EndsWithZ(id) {
        RoundRemovesAt(table, w, d, i, idx, ids);
        return Walkers(ids[..idx] + ids[idx + 1..], w.loopSizes[id := i]);
      }
      RoundCanStep(table, w, d, i, idx);
      var node := tree.GetNode(id);
      ids := ids[idx := match d case L => node.left.value case R => node.right.value];
      idx := idx + 1;
    }
    RoundMovesAll(table, w, d, i, ids);
    w' := Walkers(ids, w.loopSizes);
  }

  /** `n` passes from `w0` leave the walkers `w`, and none of them left the walkers finished. */
  ghost predicate PassesDone(table: map<string, MapNode>, dirs: seq<Direction>, w0: Walkers, n: nat, w: Walkers)
    requires |dirs| > 0
  {
    Rounds(table, dirs, w0, n) == Some(w) && RunningBefore(table, dirs, w0, n)
  }

  /** The passes of part 2, from `w0` until no walker is left. */
  method RunPasses(tree: MapNodeTree, ghost table: map<string, MapNode>, dirs: seq<Direction>, w0: Walkers, ghost goal: nat)
    returns (steps: nat, w: Walkers)
    requires table == tree.nodes && |dirs| > 0 && Finished(Rounds(table, dirs, w0, goal))
    ensures Rounds(table, dirs, w0, steps) == Some(w) && w.ids == []
    ensures RunningBefore(table, dirs, w0, steps)
  {
    w := w0;
    steps := 0;
    while |w.ids| > 0
      invariant table == tree.nodes
      invariant steps <= goal
      invariant PassesDone(table, dirs, w0, steps, w)
      decreases goal - steps
    {
      w := RunPass(tree, table, dirs, w0, goal, steps, w);
      steps := steps + 1;
    }
  }

  /** One pass of the part-2 loop, at step `n`, from the walkers the earlier passes left. */
  method RunPass(tree: MapNodeTree, ghost table: map<string, MapNode>, dirs: seq<Direction>, ghost w0: Walkers, ghost goal: nat,
                 n: nat, w: Walkers) returns (w': Walkers)
    requires table == tree.nodes && |dirs| > 0 && Finished(Rounds(table, dirs, w0, goal))
    requires n <= goal && PassesDone(table, dirs, w0, n, w) && |w.ids| > 0
    ensures n + 1 <= goal
    ensures PassesDone(table, dirs, w0, n + 1, w')
  {
    RoundsAdvance(table, dirs, w0, goal, n, w);
    w' := RunRound(tree, table, w, dirs[n % |dirs|], n);
    RoundsStep(table, dirs, w0, goal, n, w, w');
  }

  predicate EndsWithA(id: string) { |id| > 0 && id[|id| - 1] == 'A' }

  /** `node_tree.nodes.keys().filter(|x| x.ends_with("A"))`: every key ending in 'A' once, in some order. */
  predicate StartingIds(table: map<string, MapNode>, start: seq<string>) {
    && (forall i, j :: 0 <= i < j < |start| ==> start[i] != start[j])
    && (forall id :: id in start ==> id in table && EndsWithA(id))
    && (forall id :: id in table && EndsWithA(id) ==> id in start)
  }

  /**
   * `calculate_steps_to_way_out_pt2`, after parsing: passes at steps 0, 1, ...
   * until no walker is left. The starting walkers are the table's keys ending
   * in 'A' in the table's key order, which the source does not fix, so they
   * are a parameter. The source loops forever or panics unless some number of
   * passes ends with no walkers.
   */
  method WalkAll(tree: MapNodeTree, dirs: seq<Direction>, start: seq<string>) returns (steps: nat, loopSizes: map<string, nat>)
    requires |dirs| > 0 && StartingIds(tree.nodes, start)
    requires exists n :: Finished(Rounds(tree.nodes, dirs, Walkers(start, map[]), n))
    ensures Rounds(tree.nodes, dirs, Walkers(start, map[]), steps) == Some(Walkers([], loopSizes))
    ensures forall n :: 0 <= n < steps ==> !Finished(Rounds(tree.nodes, dirs, Walkers(start, map[]), n))
  {
    ghost var table := tree.nodes;
    ghost var w0 := Walkers(start, map[]);
    ghost var goal: nat :| Finished(Rounds(table, dirs, w0, goal));
    var w;
    steps, w := RunPasses(tree, table, dirs, Walkers(start, map[]), goal);
    RunningBeforeAll(table, dirs, w0, steps);
    loopSizes := w.loopSizes;
    assert w == Walkers([], loopSizes);
  }

  // ---------------------------------------------------------------------
  // Parsers
  // ---------------------------------------------------------------------

  predicate IsTurn(c: char) { c == 'L' || c == 'R' }

  function ToDirection(c: char): Direction {
    if c == 'L' then L else R
  }

  /** `parse_directions`: a non-empty run of 'L'/'R', a newline; one direction per character. */
  function ParseDirections(s: string): (r: Parsed<seq<Direction>>)
    ensures !r.Abort?
    ensures r.Done? ==> 0 < |r.value| < |s| && s[|r.value|] == '\n' && r.rest == s[|r.value| + 1..]
    ensures r.Done? ==> forall i :: 0 <= i < |r.value| ==> IsTurn(s[i]) && r.value[i] == ToDirection(s[i])
  {
    match Run1(s, IsTurn)
    case Done(run, r1) =>
      (match Tag(r1, "\n")
       case Done(_, r2) => Done(seq(|run|, i requires 0 <= i < |run| => ToDirection(run[i])), r2)
       case _ => Mismatch)
    case _ => Mismatch
  }

  /** `parse_identifier`: exactly three characters are consumed; their alphabetic prefix, which must be non-empty, is the id. */
  function ParseIdentifier(s: string): (r: Parsed<string>)
    ensures r.Done? <==> |s| >= 3 && IsAlpha(s[0])
    ensures r.Done? ==> r.rest == s[3..] && 0 < |r.value| <= 3 && r.value == s[..|r.value|]
    ensures r.Done? ==> forall i :: 0 <= i < |r.value| ==> IsAlpha(r.value[i])
    ensures r.Done? && |r.value| < 3 ==> !IsAlpha(s[|r.value|])
  {
    if |s| < 3 then Mismatch
    else match Run1(s[..3], IsAlpha)
      case Done(id, _) => Done(id, s[3..])
      case _ => Mismatch
  }

  /** `parse_map_node`: "XXX = (YYY, ZZZ)" and a newline. */
  function ParseMapNode(s: string): (r: Parsed<MapNode>)
    ensures !r.Abort?
    ensures r.Done? ==> |r.rest| < |s| && r.value.left.Some? && r.value.right.Some?
  {
    match ParseIdentifier(s)
    case Done(id, r1) =>
      (match Tag(r1, " = (")
       case Done(_, r2) =>
         (match ParseIdentifier(r2)
          case Done(left, r3) =>
            (match Tag(r3, ", ")
             case Done(_, r4) =>
               (match ParseIdentifier(r4)
                case Done(right, r5) =>
                  (match Tag(r5, ")")
                   case Done(_, r6) =>
                     (match Tag(r6, "\n")
                      case Done(_, r7) => Done(NewMapNode(id, left, right), r7)
                      case _ => Mismatch)
                   case _ => Mismatch)
                case _ => Mismatch)
             case _ => Mismatch)
          case _ => Mismatch)
       case _ => Mismatch)
    case _ => Mismatch
  }

  /** `parse_map_nodes`: `many1(parse_map_node)`. */
  function ParseMapNodes(s: string): (r: Parsed<seq<MapNode>>)
    ensures !r.Abort?
    ensures r.Done? ==> |r.value| >= 1
    decreases |s|
  {
    match ParseMapNode(s)
    case Done(n, rest) =>
      (match ParseMapNodes(rest)
       case Done(ns, rest') => Done([n] + ns, rest')
       case _ => Done([n], rest))
    case _ => Mismatch
  }

  /** `parse_map_file`: the directions line, a blank line, then the node lines. */
  function ParseMapFile(s: string): (r: Parsed<(seq<Direction>, seq<MapNode>)>)
    ensures !r.Abort?
    ensures r.Done? ==> |r.value.0| > 0 && |r.value.1| > 0
  {
    match ParseDirections(s)
    case Done(dirs, r1) =>
      (match Tag(r1, "\n")
       case Done(_, r2) =>
         (match ParseMapNodes(r2)
          case Done(nodes, r3) => Done((dirs, nodes), r3)
          case _ => Mismatch)
       case _ => Mismatch)
    case _ => Mismatch
  }

  // ---------------------------------------------------------------------
  // Reading back the text the parsers accept
  // ---------------------------------------------------------------------

  function TurnChar(d: Direction): char {
    if d == L then 'L' else 'R'
  }

  /** The directions line without its newline. */
  function RenderDirections(dirs: seq<Direction>): string {
    seq(|dirs|, i requires 0 <= i < |dirs| => TurnChar(dirs[i]))
  }

  /** A directions line reads back as its directions, in order. */
  lemma ParseDirectionsOfRender(dirs: seq<Direction>, rest: string)
    requires |dirs| > 0
    ensures ParseDirections(RenderDirections(dirs) + ("\n" + rest)) == Done(dirs, rest)
  {
    var t := RenderDirections(dirs);
    assert forall i :: 0 <= i < |t| ==> IsTurn(t[i]);
    Run1OfConcat(t, "\n" + rest, IsTurn);
    TagOfConcat("\n", rest);
    assert seq(|t|, i requires 0 <= i < |t| => ToDirection(t[i])) == dirs;
  }

  /** A node identifier as the puzzle writes it: three letters. */
  predicate IsId(s: string) {
    |s| == 3 && IsAlpha(s[0]) && IsAlpha(s[1]) && IsAlpha(s[2])
  }

  /** `parse_identifier` reads three letters as the identifier. */
  lemma ParseIdentifierOfId(id: string, rest: string)
    requires IsId(id)
    ensures ParseIdentifier(id + rest) == Done(id, rest)
  {
    assert (id + rest)[..3] == id && (id + rest)[3..] == rest;
  }

  /** The line "id = (left, right)" and its newline. */
  function RenderNode(id: string, left: string, right: string): string {
    id + (" = (" + (left + (", " + (right + (")" + "\n")))))
  }

  /** A node line reads back as the node with both neighbours. */
  lemma ParseMapNodeOfRender(id: string, left: string, right: string, rest: string)
    requires IsId(id) && IsId(left) && IsId(right)
    ensures ParseMapNode(RenderNode(id, left, right) + rest) == Done(NewMapNode(id, left, right), rest)
  {
    var r6 := "\n" + rest;
    var r5 := ")" + r6;
    var r4 := right + r5;
    var r3 := ", " + r4;
    var r2 := left + r3;
    var r1 := " = (" + r2;
    assert RenderNode(id, left, right) + rest == id + r1;
    ParseIdentifierOfId(id, r1);
    TagOfConcat(" = (", r2);
    ParseIdentifierOfId(left, r3);
    TagOfConcat(", ", r4);
    ParseIdentifierOfId(right, r5);
    TagOfConcat(")", r6);
    TagOfConcat("\n", rest);
  }

  /** A node line given as its three identifiers. */
  datatype NodeLine = NodeLine(id: string, left: string, right: string)

  predicate AllIds(lines: seq<NodeLine>) {
    forall i :: 0 <= i < |lines| ==> IsId(lines[i].id) && IsId(lines[i].left) && IsId(lines[i].right)
  }

  function RenderNodes(lines: seq<NodeLine>): string {
    if lines == [] then [] else RenderNode(lines[0].id, lines[0].left, lines[0].right) + RenderNodes(lines[1..])
  }

  function NodesOf(lines: seq<NodeLine>): seq<MapNode> {
    if lines == [] then [] else [NewMapNode(lines[0].id, lines[0].left, lines[0].right)] + NodesOf(lines[1..])
  }

  /** What may follow the node lines without being read as one more: no identifier starts there. */
  predicate NodesStop(rest: string) {
    |rest| < 3 || !IsAlpha(rest[0])
  }

  /** `many1(parse_map_node)` reads back every rendered node line, in order. */
  lemma {:induction false} ParseMapNodesOfRender(lines: seq<NodeLine>, rest: string)
    requires |lines| >= 1 && AllIds(lines) && NodesStop(rest)
    ensures ParseMapNodes(RenderNodes(lines) + rest) == Done(NodesOf(lines), rest)
  {
    var l := lines[0];
    if |lines| == 1 {
      RenderOneNode(lines, rest);
      LastNodeLine(l, rest);
    } else {
      RenderNodesCons(lines, rest);
      ParseMapNodesOfRender(lines[1..], rest);
      NextNodeLine(l, RenderNodes(lines[1..]) + rest, NodesOf(lines[1..]), rest);
    }
  }

  lemma RenderNodesCons(lines: seq<NodeLine>, rest: string)
    requires |lines| >= 1
    ensures RenderNodes(lines) + rest == RenderNode(lines[0].id, lines[0].left, lines[0].right) + (RenderNodes(lines[1..]) + rest)
  {
  }

  lemma RenderOneNode(lines: seq<NodeLine>, rest: string)
    requires |lines| == 1
    ensures RenderNodes(lines) + rest == RenderNode(lines[0].id, lines[0].left, lines[0].right) + rest
    ensures NodesOf(lines) == [NewMapNode(lines[0].id, lines[0].left, lines[0].right)]
  {
    assert lines[1..] == [];
  }

  lemma LastNodeLine(l: NodeLine, rest: string)
    requires IsId(l.id) && IsId(l.left) && IsId(l.right) && NodesStop(rest)
    ensures ParseMapNodes(RenderNode(l.id, l.left, l.right) + rest) == Done([NewMapNode(l.id, l.left, l.right)], rest)
  {
    ParseMapNodeOfRender(l.id, l.left, l.right, rest);
    assert ParseIdentifier(rest) == Mismatch;
    ParseMapNodesLast(RenderNode(l.id, l.left, l.right) + rest, NewMapNode(l.id, l.left, l.right), rest);
  }

  lemma NextNodeLine(l: NodeLine, tail: string, ns: seq<MapNode>, rest: string)
    requires IsId(l.id) && IsId(l.left) && IsId(l.right)
    requires ParseMapNodes(tail) == Done(ns, rest)
    ensures ParseMapNodes(RenderNode(l.id, l.left, l.right) + tail) == Done([NewMapNode(l.id, l.left, l.right)] + ns, rest)
  {
    ParseMapNodeOfRender(l.id, l.left, l.right, tail);
    ParseMapNodesCons(RenderNode(l.id, l.left, l.right) + tail, NewMapNode(l.id, l.left, l.right), tail, ns, rest);
  }

  lemma ParseMapNodesLast(s: string, n: MapNode, rest: string)
    requires ParseMapNode(s) == Done(n, rest) && ParseIdentifier(rest) == Mismatch
    ensures ParseMapNodes(s) == Done([n], rest)
  {
    assert ParseMapNode(rest) == Mismatch;
  }

  lemma ParseMapNodesCons(s: string, n: MapNode, tail: string, ns: seq<MapNode>, rest: string)
    requires ParseMapNode(s) == Done(n, tail) && ParseMapNodes(tail) == Done(ns, rest)
    ensures ParseMapNodes(s) == Done([n] + ns, rest)
  {
  }

  /** The puzzle file: the directions line, a blank line, then the node lines. */
  function RenderMapFile(dirs: seq<Direction>, lines: seq<NodeLine>): string {
    RenderDirections(dirs) + ("\n" + ("\n" + RenderNodes(lines)))
  }

  /** A rendered file reads back as its directions and its nodes. */
  lemma ParseMapFileOfRender(dirs: seq<Direction>, lines: seq<NodeLine>, rest: string)
    requires |dirs| > 0 && |lines| >= 1 && AllIds(lines) && NodesStop(rest)
    ensures ParseMapFile(RenderMapFile(dirs, lines) + rest) == Done((dirs, NodesOf(lines)), rest)
  {
    var r2 := RenderNodes(lines) + rest;
    MapFileRegroup(dirs, lines, rest);
    ParseDirectionsOfRender(dirs, "\n" + r2);
    ParseMapNodesOfRender(lines, rest);
    ParseMapFileSteps(RenderMapFile(dirs, lines) + rest, dirs, r2, NodesOf(lines), rest);
  }

  lemma MapFileRegroup(dirs: seq<Direction>, lines: seq<NodeLine>, rest: string)
    ensures RenderMapFile(dirs, lines) + rest == RenderDirections(dirs) + ("\n" + ("\n" + (RenderNodes(lines) + rest)))
  {
  }

  lemma ParseMapFileSteps(s: string, dirs: seq<Direction>, r2: string, nodes: seq<MapNode>, rest: string)
    requires ParseDirections(s) == Done(dirs, "\n" + r2) && ParseMapNodes(r2) == Done(nodes, rest)
    ensures ParseMapFile(s) == Done((dirs, nodes), rest)
  {
    TagOfConcat("\n", r2);
  }

  /** Part 1 on the puzzle text: parse (the source unwraps), build the tree, walk from "AAA" to "ZZZ". */
  method CalculateStepsToWayOut(input: string) returns (steps: nat)
    requires ParseMapFile(input).Done?
    requires exists k :: Walk(NodeTable(ParseMapFile(input).value.1), ParseMapFile(input).value.0, "AAA", k) == Some("ZZZ")
    ensures Walk(NodeTable(ParseMapFile(input).value.1), ParseMapFile(input).value.0, "AAA", steps) == Some("ZZZ")
    ensures forall j :: 0 <= j < steps ==> Walk(NodeTable(ParseMapFile(input).value.1), ParseMapFile(input).value.0, "AAA", j) != Some("ZZZ")
  {
    var parsed := ParseMapFile(input).value;
    var tree := BuildTree(parsed.1);
    steps := StepsToWayOut(parsed.0, tree);
  }

  /**
   * Part 2 on the puzzle text: parse (the source unwraps), build the tree and
   * walk every start id at once. `start` is the order in which the hash map
   * yields its keys ending in 'A'.
   */
  method CalculateStepsToWayOutPt2(input: string, start: seq<string>) returns (steps: nat, loopSizes: map<string, nat>)
    requires ParseMapFile(input).Done?
    requires StartingIds(NodeTable(ParseMapFile(input).value.1), start)
    requires exists n :: Finished(Rounds(NodeTable(ParseMapFile(input).value.1), ParseMapFile(input).value.0, Walkers(start, map[]), n))
    ensures Rounds(NodeTable(ParseMapFile(input).value.1), ParseMapFile(input).value.0, Walkers(start, map[]), steps) == Some(Walkers([], loopSizes))
    ensures forall n :: 0 <= n < steps ==> !Finished(Rounds(NodeTable(ParseMapFile(input).value.1), ParseMapFile(input).value.0, Walkers(start, map[]), n))
  {
    var parsed := ParseMapFile(input).value;
    var tree := BuildTree(parsed.1);
    steps, loopSizes := WalkAll(tree, parsed.0, start);
  }
}
