/** The force simulation of the graph workbench, which pushes and pulls shared position objects in
    place, and the whole clustered layout built on it. */
module ForceLayout {
  import opened Sequences
  import opened Outcomes
  import opened CardPlacement

  /** A mutable `{x, y}` object. */
  class Position {
    var x: real
    var y: real

    constructor (p: Pt)
      ensures At() == p
    {
      x, y := p.x, p.y;
    }

    function At(): Pt
      reads this
    {
      Pt(x, y)
    }
  }

  datatype Node = Node(id: NodeId, nodeType: string)
  datatype Edge = Edge(source: NodeId, target: NodeId)

  /** What the position objects say, as a value. */
  type View = map<NodeId, Pt>

  function Ids(nodes: seq<Node>): (r: seq<NodeId>)
    ensures |r| == |nodes|
    ensures forall i :: 0 <= i < |r| ==> r[i] == nodes[i].id
  {
    seq(|nodes|, i requires 0 <= i < |nodes| => nodes[i].id)
  }

  // ---------- one push, one pull ----------

  /** `delta || 1` */
  function OrOne(delta: real): real { if delta != 0.0 then delta else 1.0 }

  /** How far a pair of cards is pushed apart, per axis. */
  function Push(g: Geometry, left: Pt, right: Pt): Pt {
    var dx, dy := OrOne(right.x - left.x), OrOne(right.y - left.y);
    var dist := Max(1.0, g.hypot(dx, dy));
    var push := Max(0.0, 160.0 - dist) * 0.02;
    Pt((dx / dist) * push, (dy / dist) * push)
  }

  /** How far the ends of an edge are pulled together (negative: pushed apart), per axis. */
  function Pull(g: Geometry, source: Pt, target: Pt): Pt {
    var dx, dy := target.x - source.x, target.y - source.y;
    var dist := Max(1.0, g.hypot(dx, dy));
    var pull := (dist - 230.0) * 0.025;
    Pt((dx / dist) * pull, (dy / dist) * pull)
  }

  function RingAngle(g: Geometry, count: nat, index: nat): real {
    (count % 6) as real * (g.pi / 3.0) + index as real * 0.11
  }

  function OnRing(g: Geometry, center: Pt, count: nat, index: nat): Pt {
    var ring := count / 6 + 1;
    var angle := RingAngle(g, count, index);
    Pt(center.x + g.cos(angle) * ring as real * 86.0, center.y + g.sin(angle) * ring as real * 70.0)
  }

  /** The formulas of the layout. What the loops guarantee does not depend on them. */
  datatype Laws = Laws(push: (Pt, Pt) -> Pt, pull: (Pt, Pt) -> Pt, onRing: (Pt, nat, nat) -> Pt, spiral: Spiral)

  function LawsOf(g: Geometry): Laws {
    Laws((l: Pt, r: Pt) => Push(g, l, r),
         (s: Pt, t: Pt) => Pull(g, s, t),
         (c: Pt, n: nat, i: nat) => OnRing(g, c, n, i),
         SpiralOf(g))
  }

  function Shift(view: View, id: NodeId, d: Pt, pinned: set<NodeId>): (r: View)
    requires id in view
    ensures r.Keys == view.Keys
  {
    if id in pinned then view else view[id := Pt(view[id].x + d.x, view[id].y + d.y)]
  }

  function Negate(d: Pt): Pt { Pt(-d.x, -d.y) }

  /** Both ends of a force: `a` moves against d, `b` along it. Repeated ids make a == b. */
  function Apply(view: View, a: NodeId, b: NodeId, d: Pt, pinned: set<NodeId>): (r: View)
    requires a in view && b in view
    ensures r.Keys == view.Keys
  {
    Shift(Shift(view, a, Negate(d), pinned), b, d, pinned)
  }

  function PushPair(laws: Laws, view: View, a: NodeId, b: NodeId, pinned: set<NodeId>): (r: View)
    requires a in view && b in view
    ensures r.Keys == view.Keys
  {
    Apply(view, a, b, laws.push(view[a], view[b]), pinned)
  }

  predicate Connects(e: Edge, ids: seq<NodeId>) { e.source in ids && e.target in ids }

  function PullEdge(laws: Laws, view: View, e: Edge, ids: seq<NodeId>, pinned: set<NodeId>): (r: View)
    requires Covers(view, ids)
    ensures r.Keys == view.Keys
  {
    if Connects(e, ids) then Apply(view, e.target, e.source, laws.pull(view[e.source], view[e.target]), pinned)
        else view
  }

  ghost predicate Covers(view: View, ids: seq<NodeId>) {
    forall id :: id in ids ==> id in view
  }

  // ---------- the loops ----------

  /** The inner push loop of row a up to column b. */
  function PushRow(laws: Laws, view: View, ids: seq<NodeId>, a: nat, b: nat, pinned: set<NodeId>): (r: View)
    requires a < b <= |ids| && Covers(view, ids)
    ensures r.Keys == view.Keys
    decreases b
  {
    if b == a + 1 then view
    else PushPair(laws, PushRow(laws, view, ids, a, b - 1, pinned), ids[a], ids[b - 1], pinned)
  }

  /** The outer push loop. */
  function PushRows(laws: Laws, view: View, ids: seq<NodeId>, rows: nat, pinned: set<NodeId>): (r: View)
    requires rows <= |ids| && Covers(view, ids)
    ensures r.Keys == view.Keys
  {
    if rows == 0 then view
    else PushRow(laws, PushRows(laws, view, ids, rows - 1, pinned), ids, rows - 1, |ids|, pinned)
  }

  function PullEdges(laws: Laws, view: View, edges: seq<Edge>, ids: seq<NodeId>, pinned: set<NodeId>): (r: View)
    requires Covers(view, ids)
    ensures r.Keys == view.Keys
  {
    if edges == [] then view
    else PullEdge(laws, PullEdges(laws, view, edges[..|edges| - 1], ids, pinned), edges[|edges| - 1], ids, pinned)
  }

  function Iteration(laws: Laws, view: View, ids: seq<NodeId>, edges: seq<Edge>, pinned: set<NodeId>): (r: View)
    requires Covers(view, ids)
    ensures r.Keys == view.Keys
  {
    PullEdges(laws, PushRows(laws, view, ids, |ids|, pinned), edges, ids, pinned)
  }

  function Simulate(laws: Laws, view: View, ids: seq<NodeId>, edges: seq<Edge>, pinned: set<NodeId>, n: nat): (r: View)
    requires Covers(view, ids)
    ensures r.Keys == view.Keys
  {
    if n == 0 then view else Iteration(laws, Simulate(laws, view, ids, edges, pinned, n - 1), ids, edges, pinned)
  }

  // ---------- in place ----------

  function Snapshot(positions: map<NodeId, Position>): (r: View)
    reads positions.Values
    ensures r.Keys == positions.Keys
  {
    map id | id in positions :: positions[id].At()
  }

  /** Different ids have different position objects. */
  ghost predicate Unshared(positions: map<NodeId, Position>) {
    forall u, v :: u in positions && v in positions && u != v ==> positions[u] != positions[v]
  }

  method ApplyInPlace(positions: map<NodeId, Position>, a: NodeId, b: NodeId, d: Pt, pinned: set<NodeId>)
    requires Unshared(positions) && a in positions && b in positions
    modifies positions.Values
    ensures Snapshot(positions) == old(Apply(Snapshot(positions), a, b, d, pinned))
  {
    var left, right := positions[a], positions[b];
    if a !in pinned {
      left.x := left.x - d.x;
      left.y := left.y - d.y;
    }
    if b !in pinned {
      right.x := right.x + d.x;
      right.y := right.y + d.y;
    }
  }

  method PushTwo(laws: Laws, positions: map<NodeId, Position>, a: NodeId, b: NodeId, pinned: set<NodeId>,
      ghost now: View)
    requires Unshared(positions) && a in positions && b in positions && now == Snapshot(positions)
    modifies positions.Values
    ensures Snapshot(positions) == PushPair(laws, now, a, b, pinned)
  {
    var d := laws.push(positions[a].At(), positions[b].At());
    ApplyInPlace(positions, a, b, d, pinned);
  }

  lemma PushRowNext(laws: Laws, view: View, ids: seq<NodeId>, a: nat, b: nat, pinned: set<NodeId>)
    requires a < b < |ids| && Covers(view, ids)
    ensures var before := PushRow(laws, view, ids, a, b, pinned);
      && ids[a] in before && ids[b] in before
      && PushRow(laws, view, ids, a, b + 1, pinned) == PushPair(laws, before, ids[a], ids[b], pinned)
  {
  }

  /** What card a's loop makes of the cards, column by column. */
  ghost function RowViews(laws: Laws, start: View, ids: seq<NodeId>, a: nat, pinned: set<NodeId>): nat -> View
    requires Covers(start, ids)
  {
    (b: nat) => if a < b <= |ids| then PushRow(laws, start, ids, a, b, pinned) else start
  }

  method PushColumn(laws: Laws, positions: map<NodeId, Position>, ids: seq<NodeId>, a: nat, b: nat,
      pinned: set<NodeId>, ghost start: View, ghost rows: nat -> View)
    requires a < b < |ids| && Unshared(positions) && forall id :: id in ids ==> id in positions
    requires Covers(start, ids) && rows == RowViews(laws, start, ids, a, pinned)
    requires Snapshot(positions) == rows(b)
    modifies positions.Values
    ensures Snapshot(positions) == rows(b + 1)
  {
    PushRowNext(laws, start, ids, a, b, pinned);
    PushTwo(laws, positions, ids[a], ids[b], pinned, Snapshot(positions));
  }

  /** The inner push loop: card a against every later one. */
  method PushFrom(laws: Laws, positions: map<NodeId, Position>, ids: seq<NodeId>, a: nat, pinned: set<NodeId>,
      ghost start: View)
    requires a < |ids| && Unshared(positions) && forall id :: id in ids ==> id in positions
    requires Covers(start, ids) && start == Snapshot(positions)
    modifies positions.Values
    ensures Snapshot(positions) == PushRow(laws, start, ids, a, |ids|, pinned)
  {
    ghost var rows := RowViews(laws, start, ids, a, pinned);
    for b := a + 1 to |ids|
      invariant Snapshot(positions) == rows(b)
    {
      PushColumn(laws, positions, ids, a, b, pinned, start, rows);
    }
  }

  method PushAll(laws: Laws, positions: map<NodeId, Position>, ids: seq<NodeId>, pinned: set<NodeId>)
    requires Unshared(positions) && forall id :: id in ids ==> id in positions
    modifies positions.Values
    ensures Snapshot(positions) == old(PushRows(laws, Snapshot(positions), ids, |ids|, pinned))
  {
    for a := 0 to |ids|
      invariant Snapshot(positions) == old(PushRows(laws, Snapshot(positions), ids, a, pinned))
    {
      PushFrom(laws, positions, ids, a, pinned, Snapshot(positions));
    }
  }

  method PullAll(laws: Laws, positions: map<NodeId, Position>, edges: seq<Edge>, ids: seq<NodeId>, pinned: set<NodeId>)
    requires Unshared(positions) && forall id :: id in ids ==> id in positions
    modifies positions.Values
    ensures Snapshot(positions) == old(PullEdges(laws, Snapshot(positions), edges, ids, pinned))
  {
    for i := 0 to |edges|
      invariant Snapshot(positions) == old(PullEdges(laws, Snapshot(positions), edges[..i], ids, pinned))
    {
      assert edges[..i + 1][..i] == edges[..i];
      var e := edges[i];
      if e.source in ids && e.target in ids {
        var d := laws.pull(positions[e.source].At(), positions[e.target].At());
        ApplyInPlace(positions, e.target, e.source, d, pinned);
      }
    }
    assert edges[..|edges|] == edges;
  }

  method Relax(laws: Laws, positions: map<NodeId, Position>, edges: seq<Edge>, ids: seq<NodeId>,
      pinned: set<NodeId>, n: nat)
    requires Unshared(positions) && forall id :: id in ids ==> id in positions
    modifies positions.Values
    ensures Snapshot(positions) == old(Simulate(laws, Snapshot(positions), ids, edges, pinned, n))
  {
    for i := 0 to n
      invariant Snapshot(positions) == old(Simulate(laws, Snapshot(positions), ids, edges, pinned, i))
    {
      PushAll(laws, positions, ids, pinned);
      PullAll(laws, positions, edges, ids, pinned);
    }
  }

  // ---------- what every force keeps, the simulation keeps ----------

  /** Applying any force to any two cards keeps inv. */
  ghost predicate KeptByForces(inv: View -> bool, pinned: set<NodeId>) {
    forall v: View, a: NodeId, b: NodeId, d: Pt {:trigger inv(Apply(v, a, b, d, pinned))} ::
      a in v && b in v && inv(v) ==> inv(Apply(v, a, b, d, pinned))
  }

  lemma {:induction false} RowKeeps(laws: Laws, view: View, ids: seq<NodeId>, a: nat, b: nat, pinned: set<NodeId>,
      inv: View -> bool)
    requires Covers(view, ids) && a < b <= |ids|
    requires inv(view) && KeptByForces(inv, pinned)
    ensures inv(PushRow(laws, view, ids, a, b, pinned))
    decreases b
  {
    if b > a + 1 {
      RowKeeps(laws, view, ids, a, b - 1, pinned, inv);
    }
  }

  lemma LastRowKeeps(laws: Laws, view: View, ids: seq<NodeId>, rows: nat, pinned: set<NodeId>, inv: View -> bool)
    requires 0 < rows <= |ids| && Covers(view, ids) && KeptByForces(inv, pinned)
    requires inv(PushRows(laws, view, ids, rows - 1, pinned))
    ensures inv(PushRows(laws, view, ids, rows, pinned))
  {
    RowKeeps(laws, PushRows(laws, view, ids, rows - 1, pinned), ids, rows - 1, |ids|, pinned, inv);
  }

  lemma {:induction false} RowsKeep(laws: Laws, view: View, ids: seq<NodeId>, rows: nat, pinned: set<NodeId>,
      inv: View -> bool)
    requires Covers(view, ids) && rows <= |ids|
    requires inv(view) && KeptByForces(inv, pinned)
    ensures inv(PushRows(laws, view, ids, rows, pinned))
  {
    if rows > 0 {
      RowsKeep(laws, view, ids, rows - 1, pinned, inv);
      LastRowKeeps(laws, view, ids, rows, pinned, inv);
    }
  }

  lemma {:induction false} EdgesKeep(laws: Laws, view: View, edges: seq<Edge>, ids: seq<NodeId>,
      pinned: set<NodeId>, inv: View -> bool)
    requires Covers(view, ids)
    requires inv(view) && KeptByForces(inv, pinned)
    ensures inv(PullEdges(laws, view, edges, ids, pinned))
  {
    if edges != [] {
      EdgesKeep(laws, view, edges[..|edges| - 1], ids, pinned, inv);
    }
  }

  lemma {:induction false} SimulationKeeps(laws: Laws, view: View, ids: seq<NodeId>, edges: seq<Edge>,
      pinned: set<NodeId>, n: nat, inv: View -> bool)
    requires Covers(view, ids)
    requires inv(view) && KeptByForces(inv, pinned)
    ensures inv(Simulate(laws, view, ids, edges, pinned, n))
  {
    if n > 0 {
      SimulationKeeps(laws, view, ids, edges, pinned, n - 1, inv);
      var v := Simulate(laws, view, ids, edges, pinned, n - 1);
      RowsKeep(laws, v, ids, |ids|, pinned, inv);
      EdgesKeep(laws, PushRows(laws, v, ids, |ids|, pinned), edges, ids, pinned, inv);
    }
  }

  // ---------- conservation ----------

  /** The coordinate sums over the cards named by ids. */
  function Total(view: View, ids: seq<NodeId>): Pt
    requires Covers(view, ids)
  {
    if ids == [] then Pt(0.0, 0.0)
    else
      var n := |ids| - 1;
      var t := Total(view, ids[..n]);
      Pt(t.x + view[ids[n]].x, t.y + view[ids[n]].y)
  }

  /** A duplicate-free list of exactly the cards. */
  ghost predicate Enumerates(all: seq<NodeId>, view: View) {
    Distinct(all) && forall id :: id in all <==> id in view
  }

  lemma {:induction false} TotalUpdate(view: View, all: seq<NodeId>, id: NodeId, p: Pt)
    requires Distinct(all) && Covers(view, all) && id in view
    ensures Covers(view[id := p], all)
    ensures var t, t' := Total(view, all), Total(view[id := p], all);
      if id in all then t' == Pt(t.x - view[id].x + p.x, t.y - view[id].y + p.y) else t' == t
  {
    if all != [] {
      var n := |all| - 1;
      assert all == all[..n] + [all[n]];
      TotalUpdate(view, all[..n], id, p);
    }
  }

  /** The cards of view are those of `all`, and their coordinates sum up to t. */
  ghost predicate HasTotal(view: View, all: seq<NodeId>, t: Pt) {
    Enumerates(all, view) && Total(view, all) == t
  }

  lemma ApplyConserves(view: View, all: seq<NodeId>, t: Pt, a: NodeId, b: NodeId, d: Pt, pinned: set<NodeId>)
    requires forall id :: id in all ==> id !in pinned
    requires HasTotal(view, all, t) && a in view && b in view
    ensures HasTotal(Apply(view, a, b, d, pinned), all, t)
  {
    assert a in all && b in all;
    var mid := Shift(view, a, Negate(d), pinned);
    TotalUpdate(view, all, a, mid[a]);
    TotalUpdate(mid, all, b, Pt(mid[b].x + d.x, mid[b].y + d.y));
  }

  /** With no card of the graph pinned, any number of iterations keeps the sums of x and of y over all
      cards, for every force law and so for every distance function; repeated node ids and self-loops
      included. */
  lemma SimulationConserves(laws: Laws, view: View, all: seq<NodeId>, ids: seq<NodeId>, edges: seq<Edge>,
      pinned: set<NodeId>, n: nat)
    requires Enumerates(all, view) && Covers(view, ids)
    requires forall id :: id in all ==> id !in pinned
    ensures Total(Simulate(laws, view, ids, edges, pinned, n), all) == Total(view, all)
  {
    var t := Total(view, all);
    var inv := (v: View) => HasTotal(v, all, t);
    forall v: View, a: NodeId, b: NodeId, d: Pt | a in v && b in v && inv(v) ensures inv(Apply(v, a, b, d, pinned)) {
      ApplyConserves(v, all, t, a, b, d, pinned);
    }
    SimulationKeeps(laws, view, ids, edges, pinned, n, inv);
    assert inv(Simulate(laws, view, ids, edges, pinned, n));
  }

  // ---------- pins ----------

  /** The simulation never moves a pinned card. */
  lemma SimulationKeepsPins(laws: Laws, view: View, ids: seq<NodeId>, edges: seq<Edge>, pinned: set<NodeId>, n: nat)
    requires Covers(view, ids)
    ensures forall id :: id in view && id in pinned ==> Simulate(laws, view, ids, edges, pinned, n)[id] == view[id]
  {
    forall id | id in view && id in pinned ensures Simulate(laws, view, ids, edges, pinned, n)[id] == view[id] {
      var inv := (v: View) => id in v && v[id] == view[id];
      SimulationKeeps(laws, view, ids, edges, pinned, n, inv);
      assert inv(Simulate(laws, view, ids, edges, pinned, n));
    }
  }

  // ---------- seeding ----------

  /** The cluster of a node type that is already lower-cased. */
  function NormalizeType(key: string): string {
    if key == "c" then "conclusion"
    else if key == "e" then "evidence"
    else if key == "a" then "assumption"
    else if key == "f" then "failure"
    else if key == "g" then "gap"
    else if key == "" then "evidence"
    else key
  }

  function ClusterCenter(kind: string): Pt {
    if kind == "conclusion" then Pt(520.0, 180.0)
    else if kind == "evidence" then Pt(220.0, 310.0)
    else if kind == "assumption" then Pt(520.0, 460.0)
    else if kind == "conflict" then Pt(820.0, 310.0)
    else if kind == "failure" then Pt(820.0, 150.0)
    else if kind == "validation" || kind == "gap" then Pt(820.0, 500.0)
    else Pt(500.0, 320.0)
  }

  /** How many unpinned nodes of a cluster have been seen. */
  function Seen(nodes: seq<Node>, pinned: View, kind: string): nat {
    if nodes == [] then 0
    else
      var last := nodes[|nodes| - 1];
      Seen(nodes[..|nodes| - 1], pinned, kind)
      + (if last.id !in pinned && NormalizeType(last.nodeType) == kind then 1 else 0)
  }

  /** Where node i starts. */
  function Seed(laws: Laws, nodes: seq<Node>, pinned: View, i: nat): Pt
    requires i < |nodes|
  {
    var id, kind := nodes[i].id, NormalizeType(nodes[i].nodeType);
    if id in pinned then pinned[id] else laws.onRing(ClusterCenter(kind), Seen(nodes[..i], pinned, kind), i)
  }

  function Seeds(laws: Laws, nodes: seq<Node>, pinned: View, n: nat): (r: View)
    requires n <= |nodes|
    ensures forall i :: 0 <= i < n ==> nodes[i].id in r
  {
    if n == 0 then map[]
    else Seeds(laws, nodes, pinned, n - 1)[nodes[n - 1].id := Seed(laws, nodes, pinned, n - 1)]
  }

  lemma {:induction false} SeedsKeepPins(laws: Laws, nodes: seq<Node>, pinned: View, n: nat)
    requires n <= |nodes|
    ensures forall id :: id in Seeds(laws, nodes, pinned, n) && id in pinned ==>
        Seeds(laws, nodes, pinned, n)[id] == pinned[id]
  {
    if n > 0 {
      SeedsKeepPins(laws, nodes, pinned, n - 1);
    }
  }

  /** `typeCounts` holds the number of unpinned nodes seen so far, cluster by cluster. */
  ghost predicate CountsSeen(typeCounts: map<string, nat>, nodes: seq<Node>, pinned: View) {
    forall kind :: CountOf(typeCounts, kind) == Seen(nodes, pinned, kind)
  }

  /** `typeCounts[type] || 0` */
  function CountOf(typeCounts: map<string, nat>, kind: string): nat {
    if kind in typeCounts then typeCounts[kind] else 0
  }

  lemma CountsStep(typeCounts: map<string, nat>, nodes: seq<Node>, node: Node, pinned: View)
    requires CountsSeen(typeCounts, nodes, pinned)
    ensures node.id in pinned ==> CountsSeen(typeCounts, nodes + [node], pinned)
    ensures node.id !in pinned ==>
      var kind := NormalizeType(node.nodeType);
      CountsSeen(typeCounts[kind := CountOf(typeCounts, kind) + 1], nodes + [node], pinned)
  {
    assert (nodes + [node])[..|nodes|] == nodes;
    if node.id !in pinned {
      var kind := NormalizeType(node.nodeType);
      var counts := typeCounts[kind := CountOf(typeCounts, kind) + 1];
      forall k ensures CountOf(counts, k) == Seen(nodes + [node], pinned, k) {
        assert CountOf(typeCounts, k) == Seen(nodes, pinned, k);
      }
    }
  }

  /** Where node i starts: pinned, or next on the ring of its type. */
  method PlaceNext(laws: Laws, nodes: seq<Node>, pinned: View, i: nat, typeCounts: map<string, nat>)
    returns (start: Pt, counts: map<string, nat>)
    requires i < |nodes| && CountsSeen(typeCounts, nodes[..i], pinned)
    ensures start == Seed(laws, nodes, pinned, i) && CountsSeen(counts, nodes[..i + 1], pinned)
  {
    var node := nodes[i];
    CountsStep(typeCounts, nodes[..i], node, pinned);
    assert nodes[..i + 1] == nodes[..i] + [node];
    counts := typeCounts;
    if node.id in pinned {
      start := pinned[node.id];
    } else {
      var kind := NormalizeType(node.nodeType);
      var count := CountOf(typeCounts, kind);
      counts := typeCounts[kind := count + 1];
      start := laws.onRing(ClusterCenter(kind), count, i);
    }
  }

  method SeedByType(laws: Laws, nodes: seq<Node>, pinned: View) returns (positions: map<NodeId, Position>)
    ensures Unshared(positions) && fresh(positions.Values)
    ensures Snapshot(positions) == Seeds(laws, nodes, pinned, |nodes|)
  {
    var typeCounts: map<string, nat> := map[];
    positions := map[];
    for i := 0 to |nodes|
      invariant Unshared(positions) && fresh(positions.Values)
      invariant Snapshot(positions) == Seeds(laws, nodes, pinned, i)
      invariant CountsSeen(typeCounts, nodes[..i], pinned)
    {
      var start;
      start, typeCounts := PlaceNext(laws, nodes, pinned, i, typeCounts);
      positions := AddPosition(positions, nodes[i].id, start);
    }
    assert nodes[..|nodes|] == nodes;
  }

  method AddPosition(positions: map<NodeId, Position>, id: NodeId, start: Pt)
    returns (positions': map<NodeId, Position>)
    requires Unshared(positions)
    ensures Unshared(positions') && fresh(positions'.Values - positions.Values)
    ensures Snapshot(positions') == Snapshot(positions)[id := start]
  {
    var p := new Position(start);
    positions' := positions[id := p];
  }

  // ---------- the layout ----------

  /** `separated[id] = {...pinned[id]}` for the ids that are there. */
  function OverlayPins(result: View, pinned: View): (r: View)
    ensures r.Keys == result.Keys
  {
    map id | id in result :: if id in pinned then pinned[id] else result[id]
  }

  /** The card positions after the 80 iterations. */
  function Relaxed(laws: Laws, nodes: seq<Node>, edges: seq<Edge>, pinned: View): View {
    Simulate(laws, Seeds(laws, nodes, pinned, |nodes|), Ids(nodes), edges, pinned.Keys, 80)
  }

  method LayoutWith(laws: Laws, nodes: seq<Node>, edges: seq<Edge>, pinned: View) returns (separated: View)
    ensures separated == ById(Ids(nodes),
        Placed(laws.spiral, Ids(nodes), Relaxed(laws, nodes, edges, pinned), pinned.Keys))
  {
    var positions := SeedByType(laws, nodes, pinned);
    var ids := Ids(nodes);
    assert forall id :: id in ids ==> id in Snapshot(positions);
    Relax(laws, positions, edges, ids, pinned.Keys, 80);
    var relaxed := Snapshot(positions);
    separated := PreventCardOverlap(laws.spiral, ids, relaxed, pinned.Keys);
    PinsAlreadyInPlace(laws, nodes, edges, pinned);
    separated := OverlayPins(separated, pinned);
  }

  method ComputeClusteredLayout(g: Geometry, nodes: seq<Node>, edges: seq<Edge>, pinned: View) returns (separated: View)
    ensures separated == ById(Ids(nodes),
        Placed(SpiralOf(g), Ids(nodes), Relaxed(LawsOf(g), nodes, edges, pinned), pinned.Keys))
    ensures forall id :: id in separated && id in pinned ==> separated[id] == pinned[id]
  {
    separated := LayoutWith(LawsOf(g), nodes, edges, pinned);
    PinsAlreadyInPlace(LawsOf(g), nodes, edges, pinned);
  }

  /** The last occurrence of an id. */
  lemma {:induction false} LastOccurrence(ids: seq<NodeId>, id: NodeId) returns (i: nat)
    requires id in ids
    ensures IsLast(ids, id, i)
  {
    i := |ids| - 1;
    if ids[i] != id {
      assert ids == ids[..i] + [ids[i]];
      i := LastOccurrence(ids[..i], id);
    }
  }

  /** Every pinned card of the graph ends exactly at its pinned position, so the final overlay of the
      pins changes nothing and cannot undo the separation. */
  lemma PinsAlreadyInPlace(laws: Laws, nodes: seq<Node>, edges: seq<Edge>, pinned: View)
    ensures var r := ById(Ids(nodes),
        Placed(laws.spiral, Ids(nodes), Relaxed(laws, nodes, edges, pinned), pinned.Keys));
      && (forall id :: id in r && id in pinned ==> r[id] == pinned[id])
      && OverlayPins(r, pinned) == r
  {
    var ids, view := Ids(nodes), Relaxed(laws, nodes, edges, pinned);
    SeedsKeepPins(laws, nodes, pinned, |nodes|);
    SimulationKeepsPins(laws, Seeds(laws, nodes, pinned, |nodes|), ids, edges, pinned.Keys, 80);
    var places := Placed(laws.spiral, ids, view, pinned.Keys);
    var r := ById(ids, places);
    forall id | id in r && id in pinned ensures r[id] == pinned[id] {
      var i := LastOccurrence(ids, id);
      ByIdLast(ids, places, id, i);
      PlacedPrefix(laws.spiral, ids, view, pinned.Keys, i);
      assert ids[i] in view;
    }
  }

  // ---------- a pin over a card ----------

  lemma NoPush(g: Geometry, left: Pt, right: Pt)
    requires right.x - left.x == 200.0 && right.y == left.y && g.hypot(200.0, 1.0) >= 160.0
    ensures Push(g, left, right) == Pt(0.0, 0.0)
  {
  }

  lemma TwoCardsRest(g: Geometry, view: View, a: NodeId, b: NodeId, n: nat)
    requires a != b && a in view && b in view
    requires view[b].x - view[a].x == 200.0 && view[b].y == view[a].y && g.hypot(200.0, 1.0) >= 160.0
    ensures Covers(view, [a, b]) && Simulate(LawsOf(g), view, [a, b], [], {b}, n) == view
  {
    if n > 0 {
      TwoCardsRest(g, view, a, b, n - 1);
      var laws, ids := LawsOf(g), [a, b];
      NoPush(g, view[a], view[b]);
      assert PushRow(laws, view, ids, 0, 1, {b}) == view;
      assert PushPair(laws, view, a, b, {b}) == view;
      assert PushRow(laws, view, ids, 0, 2, {b}) == view;
      assert PushRows(laws, view, ids, 0, {b}) == view;
      assert PushRows(laws, view, ids, 1, {b}) == view;
      assert PushRow(laws, view, ids, 1, 2, {b}) == view;
      assert PushRows(laws, view, ids, 2, {b}) == view;
    }
  }

  /** The whole layout may put a card under a pin: two evidence cards without edges, the second one
      pinned 200 to the right of where the first is seeded. */
  lemma LayoutMayOverlap(g: Geometry, a: NodeId, b: NodeId)
    requires a != b && g.cos(0.0) == 1.0 && g.sin(0.0) == 0.0 && g.hypot(200.0, 1.0) >= 160.0
    ensures var nodes := [Node(a, "evidence"), Node(b, "evidence")];
      var pinned := map[b := Pt(506.0, 310.0)];
      var r := ById(Ids(nodes), Placed(SpiralOf(g), Ids(nodes), Relaxed(LawsOf(g), nodes, [], pinned), pinned.Keys));
      && r == map[a := Pt(306.0, 310.0), b := Pt(506.0, 310.0)]
      && Overlaps(r[a], r[b])
  {
    var nodes := [Node(a, "evidence"), Node(b, "evidence")];
    var pinned := map[b := Pt(506.0, 310.0)];
    var laws, at, pin := LawsOf(g), Pt(306.0, 310.0), Pt(506.0, 310.0);
    var view := map[a := at, b := pin];
    assert Ids(nodes) == [a, b] && pinned.Keys == {b};
    assert nodes[..0] == [];
    FirstOnRing(g, ClusterCenter("evidence"));
    assert Seed(laws, nodes, pinned, 0) == at;
    assert Seed(laws, nodes, pinned, 1) == pin;
    assert Seeds(laws, nodes, pinned, 0) == map[];
    assert Seeds(laws, nodes, pinned, 1) == map[a := at];
    assert Seeds(laws, nodes, pinned, 2) == view;
    TwoCardsRest(g, view, a, b, 80);
    PinnedCardMayOverlap(SpiralOf(g), a, b, at, pin);
    TwoById(a, b, at, pin);
  }

  lemma FirstOnRing(g: Geometry, center: Pt)
    requires g.cos(0.0) == 1.0 && g.sin(0.0) == 0.0
    ensures OnRing(g, center, 0, 0) == Pt(center.x + 86.0, center.y)
  {
    assert RingAngle(g, 0, 0) == 0.0;
  }

  lemma TwoById(a: NodeId, b: NodeId, at: Pt, pin: Pt)
    requires a != b
    ensures ById([a, b], [at, pin]) == map[a := at, b := pin]
  {
    var ids, places, one, first := [a, b], [at, pin], [a], [at];
    assert ids[..1] == one && places[..1] == first && one[..0] == [] && first[..0] == [];
    assert ById(one, first) == map[a := at];
  }

  // ---------- a fallback over a pin ----------

  /** A distance function that measures distances. */
  ghost predicate Euclidean(g: Geometry) {
    forall dx, dy :: g.hypot(dx, dy) >= 0.0 && g.hypot(dx, dy) * g.hypot(dx, dy) == dx * dx + dy * dy
  }

  lemma SquareAtLeast(h: real, square: real)
    requires h >= 0.0 && h * h == square && square >= 25600.0
    ensures h >= 160.0
  {
    if h < 160.0 {
      NonNegativeProduct(160.0 - h, h);
      assert (160.0 - h) * h == 160.0 * h - h * h;
    }
  }

  /** Cards at a distance of 160 or more do not push each other. */
  lemma FarCardsRest(g: Geometry, left: Pt, right: Pt)
    requires Euclidean(g)
    requires var dx, dy := OrOne(right.x - left.x), OrOne(right.y - left.y); dx * dx + dy * dy >= 25600.0
    ensures Push(g, left, right) == Pt(0.0, 0.0)
  {
    var dx, dy := OrOne(right.x - left.x), OrOne(right.y - left.y);
    SquareAtLeast(g.hypot(dx, dy), dx * dx + dy * dy);
  }

  lemma AtLeastSquare(d: real, a: real)
    requires a >= 0.0 && (d >= a || d <= -a)
    ensures d * d >= a * a
  {
    if d >= a {
      NonNegativeProduct(d - a, d + a);
      assert (d - a) * (d + a) == d * d - a * a;
    } else {
      NonNegativeProduct(-d - a, a - d);
      assert (-d - a) * (a - d) == d * d - a * a;
    }
  }

  /** The middle of four tiles is 160 away from every tile, and from the grid cell. */
  lemma TilesAreFar(at: Pt, k: nat)
    requires Middling(at) && k < 109
    ensures var dx, dy := OrOne(at.x - Tile(at, k).x), OrOne(at.y - Tile(at, k).y); dx * dx + dy * dy >= 25600.0
  {
    var dx, dy := OrOne(at.x - Tile(at, k).x), OrOne(at.y - Tile(at, k).y);
    if k == 108 {
      assert Grid(109).y == MARGIN + 18.0 * (CARD_HEIGHT + CARD_GAP);
      AtLeastSquare(dy, 160.0);
      AtLeastSquare(dx, 0.0);
    } else {
      ColumnsApart(k % 9);
      RowsApart(k / 9);
      AtLeastSquare(dx, 142.0);
      AtLeastSquare(dy, 76.0);
    }
  }

  lemma ColumnsApart(a: nat)
    ensures var d := 142.0 - a as real * (CARD_WIDTH + CARD_GAP); d >= 142.0 || d <= -142.0
  {
    if a >= 1 {
      StepsApart(0, a, CARD_WIDTH + CARD_GAP);
    }
  }

  lemma RowsApart(b: nat)
    ensures var d := 228.0 - b as real * (CARD_HEIGHT + CARD_GAP); d >= 76.0 || d <= -76.0
  {
    if b >= 2 {
      StepsApart(1, b, CARD_HEIGHT + CARD_GAP);
    }
  }

  /** No pair of cards moves. */
  ghost predicate AtRest(laws: Laws, view: View, ids: seq<NodeId>, pinned: set<NodeId>)
    requires Covers(view, ids)
  {
    forall a, b :: 0 <= a < b < |ids| ==> PairRests(laws, view, ids, a, b, pinned)
  }

  ghost predicate PairRests(laws: Laws, view: View, ids: seq<NodeId>, a: nat, b: nat, pinned: set<NodeId>)
    requires Covers(view, ids) && a < |ids| && b < |ids|
  {
    PushPair(laws, view, ids[a], ids[b], pinned) == view
  }

  lemma {:induction false} RowRests(laws: Laws, view: View, ids: seq<NodeId>, a: nat, b: nat, pinned: set<NodeId>)
    requires Covers(view, ids) && AtRest(laws, view, ids, pinned) && a < b <= |ids|
    ensures PushRow(laws, view, ids, a, b, pinned) == view
    decreases b
  {
    if b > a + 1 {
      RowRests(laws, view, ids, a, b - 1, pinned);
      PairRestsNext(laws, view, ids, a, b - 1, pinned);
    }
  }

  lemma PairRestsNext(laws: Laws, view: View, ids: seq<NodeId>, a: nat, b: nat, pinned: set<NodeId>)
    requires Covers(view, ids) && AtRest(laws, view, ids, pinned) && a < b < |ids|
    requires PushRow(laws, view, ids, a, b, pinned) == view
    ensures PushRow(laws, view, ids, a, b + 1, pinned) == view
  {
    PushRowNext(laws, view, ids, a, b, pinned);
    assert PairRests(laws, view, ids, a, b, pinned);
  }

  lemma {:induction false} RowsRest(laws: Laws, view: View, ids: seq<NodeId>, rows: nat, pinned: set<NodeId>)
    requires Covers(view, ids) && AtRest(laws, view, ids, pinned) && rows <= |ids|
    ensures PushRows(laws, view, ids, rows, pinned) == view
  {
    if rows > 0 {
      RowsRest(laws, view, ids, rows - 1, pinned);
      LastRowRests(laws, view, ids, rows, pinned);
    }
  }

  lemma LastRowRests(laws: Laws, view: View, ids: seq<NodeId>, rows: nat, pinned: set<NodeId>)
    requires Covers(view, ids) && AtRest(laws, view, ids, pinned) && 0 < rows <= |ids|
    requires PushRows(laws, view, ids, rows - 1, pinned) == view
    ensures PushRows(laws, view, ids, rows, pinned) == view
  {
    RowRests(laws, view, ids, rows - 1, |ids|, pinned);
  }

  lemma {:induction false} LayoutRests(laws: Laws, view: View, ids: seq<NodeId>, pinned: set<NodeId>, n: nat)
    requires Covers(view, ids) && AtRest(laws, view, ids, pinned)
    ensures Simulate(laws, view, ids, [], pinned, n) == view
  {
    if n > 0 {
      LayoutRests(laws, view, ids, pinned, n - 1);
      RowsRest(laws, view, ids, |ids|, pinned);
    }
  }

  /** A view with the pins on their tiles and the last card between them. */
  ghost predicate OnTiles(view: View, ids: seq<NodeId>, at: Pt) {
    && Covers(view, ids) && |ids| == 110
    && forall k :: 0 <= k < 110 ==> view[ids[k]] == if k < 109 then Tile(at, k) else at
  }

  lemma PinnedPairRests(laws: Laws, view: View, a: NodeId, b: NodeId, pinned: set<NodeId>)
    requires a in view && b in view && a in pinned && (b in pinned || laws.push(view[a], view[b]) == Pt(0.0, 0.0))
    ensures PushPair(laws, view, a, b, pinned) == view
  {
  }

  lemma TilesRest(g: Geometry, view: View, ids: seq<NodeId>, pinned: set<NodeId>, at: Pt)
    requires Euclidean(g) && Middling(at) && FirstPinned(ids, pinned) && OnTiles(view, ids, at)
    ensures AtRest(LawsOf(g), view, ids, pinned)
  {
    forall a, b | 0 <= a < b < |ids| ensures PairRests(LawsOf(g), view, ids, a, b, pinned) {
      if b == 109 {
        TilesAreFar(at, a);
        FarCardsRest(g, Tile(at, a), at);
      }
      PinnedPairRests(LawsOf(g), view, ids[a], ids[b], pinned);
    }
  }

  // ---------- its seeds ----------

  lemma {:induction false} SeedsAt(laws: Laws, nodes: seq<Node>, pinned: View, n: nat, k: nat)
    requires k < n <= |nodes| && Distinct(Ids(nodes))
    ensures nodes[k].id in Seeds(laws, nodes, pinned, n)
    ensures Seeds(laws, nodes, pinned, n)[nodes[k].id] == Seed(laws, nodes, pinned, k)
  {
    if k < n - 1 {
      SeedsAt(laws, nodes, pinned, n - 1, k);
      assert Ids(nodes)[k] != Ids(nodes)[n - 1];
    }
  }

  lemma {:induction false} NoneSeen(nodes: seq<Node>, pinned: View, kind: string)
    requires forall k :: 0 <= k < |nodes| ==> nodes[k].id in pinned
    ensures Seen(nodes, pinned, kind) == 0
  {
    if nodes != [] {
      NoneSeen(nodes[..|nodes| - 1], pinned, kind);
    }
  }

  /** Where the last card is seeded. */
  function LastSeed(g: Geometry): Pt { OnRing(g, ClusterCenter("evidence"), 0, 109) }

  lemma LastSeedMiddling(g: Geometry)
    requires UnitBounded(g)
    ensures Middling(LastSeed(g))
  {
    var a := RingAngle(g, 0, 109);
    assert LastSeed(g) == Pt(220.0 + g.cos(a) * 1.0 * 86.0, 310.0 + g.sin(a) * 1.0 * 70.0);
  }

  /** 110 evidence cards: the first 109 are pinned to the tiles around the last one's seed. */
  ghost predicate TiledNodes(g: Geometry, nodes: seq<Node>, pinned: View) {
    && |nodes| == 110 && FirstPinned(Ids(nodes), pinned.Keys)
    && nodes[109].nodeType == "evidence"
    && forall k :: 0 <= k < 109 ==> nodes[k].id in pinned && pinned[nodes[k].id] == Tile(LastSeed(g), k)
  }

  lemma LastIsSeeded(g: Geometry, nodes: seq<Node>, pinned: View)
    requires TiledNodes(g, nodes, pinned)
    ensures Seed(LawsOf(g), nodes, pinned, 109) == LastSeed(g)
  {
    assert Ids(nodes)[109] !in pinned.Keys;
    NoneSeen(nodes[..109], pinned, "evidence");
  }

  lemma SeededOnTiles(g: Geometry, nodes: seq<Node>, pinned: View)
    requires TiledNodes(g, nodes, pinned)
    ensures OnTiles(Seeds(LawsOf(g), nodes, pinned, 110), Ids(nodes), LastSeed(g))
  {
    var view, ids := Seeds(LawsOf(g), nodes, pinned, 110), Ids(nodes);
    LastIsSeeded(g, nodes, pinned);
    forall k | 0 <= k < 110 ensures ids[k] in view && view[ids[k]] == if k < 109 then Tile(LastSeed(g), k)
        else LastSeed(g) {
      SeedsAt(LawsOf(g), nodes, pinned, 110, k);
    }
  }

  /** The whole layout may put a card that finds no free place onto a pin, although the pins come first and
      are free of each other. */
  lemma LayoutMayFallBack(g: Geometry, nodes: seq<Node>, pinned: View)
    requires UnitBounded(g) && Euclidean(g) && TiledNodes(g, nodes, pinned)
    ensures var ids := Ids(nodes);
      var relaxed := Relaxed(LawsOf(g), nodes, [], pinned);
      var r := ById(ids, Placed(SpiralOf(g), ids, relaxed, pinned.Keys));
      && PinsFirst(ids, pinned.Keys) && PinsFree(ids, relaxed, pinned.Keys)
      && ids[108] in r && ids[109] in r && r[ids[108]] == r[ids[109]] == Grid(109)
  {
    var ids, at := Ids(nodes), LastSeed(g);
    var seeds := Seeds(LawsOf(g), nodes, pinned, 110);
    LastSeedMiddling(g);
    SeededOnTiles(g, nodes, pinned);
    TilesRest(g, seeds, ids, pinned.Keys, at);
    LayoutRests(LawsOf(g), seeds, ids, pinned.Keys, 80);
    assert Relaxed(LawsOf(g), nodes, [], pinned) == seeds;
    FallbackMayOverlap(g, ids, seeds, pinned.Keys, at);
    var places := Placed(SpiralOf(g), ids, seeds, pinned.Keys);
    ByIdLast(ids, places, ids[108], 108);
    ByIdLast(ids, places, ids[109], 109);
  }
}
