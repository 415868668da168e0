/** Where a card is put and where it is seeded, in plain numbers. */
module PlacementLaws {
  import opened Sequences
  import opened Outcomes
  import opened CardPlacement
  import opened ForceLayout

  /** Two cards overlap exactly if they are less than 284 apart in x and less than 152 apart in y. */
  lemma OverlapExact(a: Pt, b: Pt)
    ensures Overlaps(a, b) <==> -284.0 < a.x - b.x < 284.0 && -152.0 < a.y - b.y < 152.0
  {
  }

  ghost predicate Collides(p: Pt, placed: seq<Pt>) {
    exists i :: 0 <= i < |placed| && -284.0 < p.x - placed[i].x < 284.0 && -152.0 < p.y - placed[i].y < 152.0
  }

  lemma FreeExact(p: Pt, placed: seq<Pt>)
    ensures IsFree(p, placed) <==> !Collides(p, placed)
  {
    forall i | 0 <= i < |placed| {
      OverlapExact(p, placed[i]);
    }
  }

  // ---------- the search ----------

  /** The point at `radius` in direction `angle`, flattened, and not closer than 32 to the left and upper edge. */
  function PointAt(g: Geometry, base: Pt, angle: real, radius: real): Pt {
    var x, y := base.x + radius * g.cos(angle), base.y + 0.72 * radius * g.sin(angle);
    Pt(if x < 32.0 then 32.0 else x, if y < 32.0 then 32.0 else y)
  }

  /** Direction `step` of the card's search: an eighteenth of a turn each, from a start of its own. */
  function Direction(g: Geometry, orderIndex: nat, step: nat): real {
    (step as real + 0.37 * orderIndex as real) * (g.pi / 9.0)
  }

  /** The point on ring k in direction `step`. */
  function RingPoint(g: Geometry, base: Pt, orderIndex: nat, k: nat, step: nat): Pt {
    PointAt(g, base, Direction(g, orderIndex, step), 90.0 + 46.0 * k as real)
  }

  lemma SameAngle(a: real, pi: real)
    ensures (a / 18.0) * pi * 2.0 == a * (pi / 9.0)
  {
  }

  lemma AngleExact(g: Geometry, orderIndex: nat, step: nat)
    ensures Angle(g, orderIndex, step) == Direction(g, orderIndex, step)
  {
    var a := step as real + 0.37 * orderIndex as real;
    assert step as real + orderIndex as real * 0.37 == a;
    SameAngle(a, g.pi);
  }

  lemma SpiralIsPoint(g: Geometry, base: Pt, orderIndex: nat, radius: int, step: nat, angle: real, r: real)
    requires angle == Angle(g, orderIndex, step) && r == radius as real
    ensures Base(SpiralPoint(g, base, orderIndex, radius, step)) == PointAt(g, base, angle, r)
  {
    Commutes(g, angle, r);
  }

  lemma PointExact(g: Geometry, base: Pt, orderIndex: nat, k: nat, step: nat)
    ensures Base(SpiralPoint(g, base, orderIndex, 90 + 46 * k, step)) == RingPoint(g, base, orderIndex, k, step)
  {
    AngleExact(g, orderIndex, step);
    RadiusExact(k);
    SpiralIsPoint(g, base, orderIndex, 90 + 46 * k, step, Direction(g, orderIndex, step), 90.0 + 46.0 * k as real);
  }

  lemma CandidateExact(g: Geometry, base: Pt, orderIndex: nat, k: nat, step: nat)
    requires step < 18
    ensures NthCandidate(SpiralOf(g), base, orderIndex, 18 * k + step) == RingPoint(g, base, orderIndex, k, step)
  {
    CandidateNumber(k, step);
    PointExact(g, base, orderIndex, k, step);
  }

  lemma RadiusExact(k: nat)
    ensures (90 + 46 * k) as real == 90.0 + 46.0 * k as real
  {
  }

  lemma Commutes(g: Geometry, angle: real, radius: real)
    ensures g.cos(angle) * radius == radius * g.cos(angle)
    ensures g.sin(angle) * radius * 0.72 == 0.72 * radius * g.sin(angle)
  {
  }

  predicate Before(k: nat, step: nat, k': nat, step': nat) { k < k' || (k == k' && step < step') }

  predicate OnSpiral(k: nat, step: nat) { k < 46 && step < 18 }

  /** The point (k, step) is free. */
  ghost predicate FreePoint(g: Geometry, base: Pt, placed: seq<Pt>, orderIndex: nat, k: nat, step: nat) {
    OnSpiral(k, step) && !Collides(RingPoint(g, base, orderIndex, k, step), placed)
  }

  /** It is free, no smaller ring has a free point, and no earlier direction of its own ring has. */
  ghost predicate FirstPoint(g: Geometry, base: Pt, placed: seq<Pt>, orderIndex: nat, k: nat, step: nat) {
    && FreePoint(g, base, placed, orderIndex, k, step)
    && forall k': nat, step': nat :: FreePoint(g, base, placed, orderIndex, k', step') ==> !Before(k', step', k, step)
  }

  lemma FreePointExact(g: Geometry, base: Pt, placed: seq<Pt>, orderIndex: nat, n: nat)
    requires n < RADIUS_COUNT * ANGLE_COUNT
    ensures IsFree(NthCandidate(SpiralOf(g), base, orderIndex, n), placed)
      <==> FreePoint(g, base, placed, orderIndex, n / 18, n % 18)
  {
    CandidateExact(g, base, orderIndex, n / 18, n % 18);
    FreeExact(RingPoint(g, base, orderIndex, n / 18, n % 18), placed);
  }

  lemma {:induction false} FirstFreeIs(sp: Spiral, base: Pt, placed: seq<Pt>, orderIndex: nat, from: nat)
    returns (n: nat)
    requires FirstFree(sp, base, placed, orderIndex, from).Some?
    ensures from <= n < RADIUS_COUNT * ANGLE_COUNT && IsFree(NthCandidate(sp, base, orderIndex, n), placed)
    ensures FirstFree(sp, base, placed, orderIndex, from).value == NthCandidate(sp, base, orderIndex, n)
    ensures forall m :: from <= m < n ==> !IsFree(NthCandidate(sp, base, orderIndex, m), placed)
    decreases RADIUS_COUNT * ANGLE_COUNT - from
  {
    n := from;
    if !IsFree(NthCandidate(sp, base, orderIndex, from), placed) {
      n := FirstFreeIs(sp, base, placed, orderIndex, from + 1);
    }
  }

  lemma EarlierNumber(k: nat, step: nat, n: nat)
    requires step < 18 && Before(k, step, n / 18, n % 18)
    ensures 18 * k + step < n
  {
  }

  lemma NumberOf(k: nat, step: nat)
    requires OnSpiral(k, step)
    ensures 18 * k + step < RADIUS_COUNT * ANGLE_COUNT && (18 * k + step) / 18 == k && (18 * k + step) % 18 == step
  {
  }

  lemma FirstPointIs(g: Geometry, base: Pt, placed: seq<Pt>, orderIndex: nat, n: nat)
    requires n < RADIUS_COUNT * ANGLE_COUNT && IsFree(NthCandidate(SpiralOf(g), base, orderIndex, n), placed)
    requires forall m :: 0 <= m < n ==> !IsFree(NthCandidate(SpiralOf(g), base, orderIndex, m), placed)
    ensures FirstPoint(g, base, placed, orderIndex, n / 18, n % 18)
  {
    FreePointExact(g, base, placed, orderIndex, n);
    forall k: nat, step: nat | FreePoint(g, base, placed, orderIndex, k, step)
      ensures !Before(k, step, n / 18, n % 18)
    {
      NumberOf(k, step);
      FreePointExact(g, base, placed, orderIndex, 18 * k + step);
      if Before(k, step, n / 18, n % 18) {
        EarlierNumber(k, step, n);
      }
    }
  }

  /** The wanted place, kept off the left and the upper edge. */
  function Wanted(desired: Pt): Pt {
    Pt(if desired.x < 32.0 then 32.0 else desired.x, if desired.y < 32.0 then 32.0 else desired.y)
  }

  ghost predicate SomePoint(g: Geometry, base: Pt, placed: seq<Pt>, orderIndex: nat) {
    exists k: nat, step: nat :: FreePoint(g, base, placed, orderIndex, k, step)
  }

  lemma FoundIsPoint(g: Geometry, base: Pt, placed: seq<Pt>, orderIndex: nat)
    requires FirstFree(SpiralOf(g), base, placed, orderIndex, 0).Some?
    ensures SomePoint(g, base, placed, orderIndex)
    ensures Chosen(g, base, placed, orderIndex, FirstFree(SpiralOf(g), base, placed, orderIndex, 0).value)
  {
    var n := FirstFreeIs(SpiralOf(g), base, placed, orderIndex, 0);
    FirstPointIs(g, base, placed, orderIndex, n);
    CandidateExact(g, base, orderIndex, n / 18, n % 18);
    assert ChosenAt(g, base, placed, orderIndex, n / 18, n % 18, NthCandidate(SpiralOf(g), base, orderIndex, n));
  }

  lemma PointIsFound(g: Geometry, base: Pt, placed: seq<Pt>, orderIndex: nat, k: nat, step: nat)
    requires FreePoint(g, base, placed, orderIndex, k, step)
    ensures FirstFree(SpiralOf(g), base, placed, orderIndex, 0).Some?
  {
    NumberOf(k, step);
    FreePointExact(g, base, placed, orderIndex, 18 * k + step);
  }

  predicate IsGridCell(p: Pt, orderIndex: nat) {
    p == Pt(32.0 + 284.0 * (orderIndex % 6) as real, 32.0 + 152.0 * (orderIndex / 6) as real)
  }

  ghost predicate ChosenAt(g: Geometry, base: Pt, placed: seq<Pt>, orderIndex: nat, k: nat, step: nat, p: Pt) {
    FirstPoint(g, base, placed, orderIndex, k, step) && p == RingPoint(g, base, orderIndex, k, step)
  }

  ghost predicate Chosen(g: Geometry, base: Pt, placed: seq<Pt>, orderIndex: nat, p: Pt) {
    exists k: nat, step: nat :: ChosenAt(g, base, placed, orderIndex, k, step, p)
  }

  lemma GridExact(orderIndex: nat)
    ensures IsGridCell(Grid(orderIndex), orderIndex)
  {
  }

  /** A card gets the place it wants if that is free; otherwise a point of the smallest ring that has a free one,
      the earliest of them; and only if all 46 rings are taken its cell of a grid six wide. */
  lemma NearestExact(g: Geometry, desired: Pt, placed: seq<Pt>, orderIndex: nat)
    ensures var p, base := NearestFree(SpiralOf(g), desired, placed, orderIndex), Wanted(desired);
      if !Collides(base, placed) then p == base
      else if SomePoint(g, base, placed, orderIndex) then Chosen(g, base, placed, orderIndex, p)
      else IsGridCell(p, orderIndex)
  {
    var base := Wanted(desired);
    FreeExact(base, placed);
    GridExact(orderIndex);
    if SomePoint(g, base, placed, orderIndex) {
      var k: nat, step: nat :| FreePoint(g, base, placed, orderIndex, k, step);
      PointIsFound(g, base, placed, orderIndex, k, step);
      FoundIsPoint(g, base, placed, orderIndex);
    } else if FirstFree(SpiralOf(g), base, placed, orderIndex, 0).Some? {
      FoundIsPoint(g, base, placed, orderIndex);
    }
  }

  // ---------- the rings ----------

  /** A geometry whose points on the unit circle are on it. */
  ghost predicate OnCircle(g: Geometry) {
    forall a :: g.cos(a) * g.cos(a) + g.sin(a) * g.sin(a) == 1.0
  }

  lemma Ellipse(c: real, s: real, a: real, b: real)
    requires c * c + s * s == 1.0
    ensures (b * (a * c)) * (b * (a * c)) + (a * (b * s)) * (a * (b * s)) == (a * b) * (a * b)
  {
    var ab := a * b;
    assert b * (a * c) == ab * c && a * (b * s) == ab * s;
    assert (ab * c) * (ab * c) + (ab * s) * (ab * s) == (ab * ab) * (c * c + s * s);
  }

  /** The point is on the ellipse around `center` with the half axes a and b. */
  predicate OnEllipse(p: Pt, center: Pt, a: real, b: real) {
    (b * (p.x - center.x)) * (b * (p.x - center.x)) + (a * (p.y - center.y)) * (a * (p.y - center.y))
        == (a * b) * (a * b)
  }

  /** Each ring of the search is an ellipse around the wanted place, 28 % flatter than wide. */
  lemma SearchEllipse(g: Geometry, base: Pt, orderIndex: nat, radius: int, step: nat)
    requires OnCircle(g)
    ensures OnEllipse(SpiralPoint(g, base, orderIndex, radius, step), base, radius as real, 0.72 * radius as real)
  {
    var angle, r := Angle(g, orderIndex, step), radius as real;
    Ellipse(g.cos(angle), g.sin(angle), r, 0.72 * r);
    var p := SpiralPoint(g, base, orderIndex, radius, step);
    assert p.x - base.x == r * g.cos(angle);
    FlatY(g.sin(angle), r);
    assert p.y - base.y == (0.72 * r) * g.sin(angle);
  }

  lemma FlatY(s: real, r: real)
    ensures s * r * 0.72 == (0.72 * r) * s
  {
  }

  /** The n-th unpinned card of a cluster starts on the cluster's ellipse number n / 6 + 1, and six cards share
      one, a sixth of a turn apart, and 0.11 further for each card of the graph that comes before. */
  lemma SeedEllipse(g: Geometry, center: Pt, count: nat, index: nat)
    requires OnCircle(g)
    ensures var ring := (count / 6 + 1) as real;
      OnEllipse(OnRing(g, center, count, index), center, 86.0 * ring, 70.0 * ring)
    ensures count % 6 < 5 ==> RingAngle(g, count + 1, index) - RingAngle(g, count, index) == g.pi / 3.0
    ensures RingAngle(g, count, index + 1) - RingAngle(g, count, index) == 0.11 && RingAngle(g, 0, 0) == 0.0
  {
    var angle, ring := RingAngle(g, count, index), (count / 6 + 1) as real;
    Ellipse(g.cos(angle), g.sin(angle), 86.0 * ring, 70.0 * ring);
    var p := OnRing(g, center, count, index);
    RingOffset(g.cos(angle), ring, 86.0);
    RingOffset(g.sin(angle), ring, 70.0);
    assert p.x - center.x == (86.0 * ring) * g.cos(angle);
    assert p.y - center.y == (70.0 * ring) * g.sin(angle);
    if count % 6 < 5 {
      SixthTurn(count, index, g.pi);
    }
  }

  lemma SixthTurn(count: nat, index: nat, pi: real)
    requires count % 6 < 5
    ensures ((count + 1) % 6) as real * (pi / 3.0) == (count % 6) as real * (pi / 3.0) + pi / 3.0
  {
    assert (count + 1) % 6 == count % 6 + 1;
  }

  lemma RingOffset(c: real, ring: real, axis: real)
    ensures c * ring * axis == (axis * ring) * c
  {
  }

  /** Two unpinned cards of one cluster never share a place on the same ring. */
  lemma {:induction false} SlotsDiffer(nodes: seq<Node>, pinned: View, i: nat, j: nat)
    requires i < j <= |nodes| && nodes[i].id !in pinned
    ensures var kind := NormalizeType(nodes[i].nodeType);
      Seen(nodes[..i], pinned, kind) < Seen(nodes[..j], pinned, kind)
  {
    var n := j - 1;
    assert nodes[..j][..n] == nodes[..n] && nodes[..j][n] == nodes[n];
    if i < n {
      SlotsDiffer(nodes, pinned, i, n);
    }
  }

  /** The first rings of two clusters do not meet: their centers are a ring's width or height apart. */
  lemma ClustersApart(a: string, b: string)
    ensures var p, q := ClusterCenter(a), ClusterCenter(b);
      p == q || p.x - q.x >= 172.0 || q.x - p.x >= 172.0 || p.y - q.y >= 140.0 || q.y - p.y >= 140.0
  {
  }

  /** One-letter types belong to the clusters they abbreviate, and nodes without a type to the evidence. */
  lemma ShortTypes()
    ensures NormalizeType("c") == NormalizeType("conclusion") && NormalizeType("e") == NormalizeType("evidence")
    ensures NormalizeType("a") == NormalizeType("assumption") && NormalizeType("f") == NormalizeType("failure")
    ensures NormalizeType("g") == NormalizeType("gap") && NormalizeType("") == NormalizeType("evidence")
    ensures forall kind: string :: |kind| > 1 ==> NormalizeType(kind) == kind
  {
  }

  /** A card without a position gets the upper left corner if that is free. */
  lemma NoPosition(sp: Spiral, id: NodeId, positions: map<NodeId, Pt>, pinned: set<NodeId>, before: seq<Pt>, n: nat)
    requires id !in positions && id !in pinned && !Collides(Pt(32.0, 32.0), before)
    ensures PlaceOf(sp, id, positions, pinned, before, n) == Pt(32.0, 32.0)
  {
    FreeExact(Pt(32.0, 32.0), before);
  }

  // ---------- a layout that is free already ----------

  /** The wanted places are inside the margin and do not overlap. */
  ghost predicate Tidy(ids: seq<NodeId>, positions: map<NodeId, Pt>) {
    && (forall i :: 0 <= i < |ids| ==> Wanted(Desired(positions, ids[i])) == Desired(positions, ids[i]))
    && (forall i, j :: 0 <= i < j < |ids| ==> !Overlaps(Desired(positions, ids[i]), Desired(positions, ids[j])))
  }

  /** Cards that are tidy already stay where they are. */
  lemma {:induction false} TidyStays(sp: Spiral, ids: seq<NodeId>, positions: map<NodeId, Pt>, pinned: set<NodeId>)
    requires Tidy(ids, positions)
    ensures forall i :: 0 <= i < |ids| ==> Placed(sp, ids, positions, pinned)[i] == Desired(positions, ids[i])
  {
    if ids != [] {
      var n := |ids| - 1;
      TidyStays(sp, ids[..n], positions, pinned);
      var before := Placed(sp, ids[..n], positions, pinned);
      forall i | 0 <= i < n ensures !Overlaps(Desired(positions, ids[n]), before[i]) {
        assert ids[..n][i] == ids[i];
        OverlapExact(Desired(positions, ids[n]), before[i]);
        OverlapExact(before[i], Desired(positions, ids[n]));
      }
      StaysWhenFree(sp, Desired(positions, ids[n]), before, n);
      forall i | 0 <= i < |ids| ensures Placed(sp, ids, positions, pinned)[i] == Desired(positions, ids[i]) {
        if i < n {
          assert ids[..n][i] == ids[i];
        }
      }
    }
  }

  lemma StaysWhenFree(sp: Spiral, desired: Pt, placed: seq<Pt>, orderIndex: nat)
    requires Wanted(desired) == desired && IsFree(desired, placed)
    ensures NearestFree(sp, desired, placed, orderIndex) == desired
  {
  }
}
