/** Greedy card placement of the graph workbench: keep a card where it wants to be if that is free,
    otherwise search outwards, otherwise fall back to a fixed grid. */
module CardPlacement {
  import opened Sequences
  import opened Outcomes

  /** A node id; only equality matters. */
  type NodeId(==, !new)

  datatype Pt = Pt(x: real, y: real)

  /** The host's Math object: nothing is assumed about its functions. */
  datatype Geometry = Geometry(cos: real -> real, sin: real -> real, hypot: (real, real) -> real, pi: real)

  const CARD_WIDTH := 250.0
  const CARD_HEIGHT := 118.0
  const CARD_GAP := 34.0
  const MARGIN := 32.0
  const ANGLE_COUNT := 18
  /** Radii 90, 136, ..., 2160. */
  const RADIUS_COUNT := 46

  function Max(a: real, b: real): real { if a >= b then a else b }

  predicate Overlaps(left: Pt, right: Pt) {
    !(|| left.x + CARD_WIDTH + CARD_GAP <= right.x
      || right.x + CARD_WIDTH + CARD_GAP <= left.x
      || left.y + CARD_HEIGHT + CARD_GAP <= right.y
      || right.y + CARD_HEIGHT + CARD_GAP <= left.y)
  }

  predicate IsFree(candidate: Pt, placed: seq<Pt>) {
    forall i :: 0 <= i < |placed| ==> !Overlaps(candidate, placed[i])
  }

  function Base(desired: Pt): Pt { Pt(Max(MARGIN, desired.x), Max(MARGIN, desired.y)) }

  /** The direction of an angular step; each card starts its search a little further round. */
  function Angle(g: Geometry, orderIndex: nat, step: nat): real {
    ((step as real + orderIndex as real * 0.37) / ANGLE_COUNT as real) * g.pi * 2.0
  }

  /** The point on ring `radius` at angular step `step` around `base`, before the margin is applied. */
  function SpiralPoint(g: Geometry, base: Pt, orderIndex: nat, radius: int, step: nat): Pt {
    var angle := Angle(g, orderIndex, step);
    Pt(base.x + g.cos(angle) * radius as real, base.y + g.sin(angle) * radius as real * 0.72)
  }

  /** The search and its guarantees do not depend on the shape of the spiral. */
  type Spiral = (Pt, nat, int, nat) -> Pt

  function SpiralOf(g: Geometry): Spiral {
    (base: Pt, orderIndex: nat, radius: int, step: nat) => SpiralPoint(g, base, orderIndex, radius, step)
  }

  /** The n-th spiral candidate in search order. */
  function NthCandidate(sp: Spiral, base: Pt, orderIndex: nat, n: nat): Pt {
    Base(sp(base, orderIndex, 90 + 46 * (n / ANGLE_COUNT), n % ANGLE_COUNT))
  }

  /** The first free spiral candidate from the n-th on. */
  function FirstFree(sp: Spiral, base: Pt, placed: seq<Pt>, orderIndex: nat, n: nat): (r: Option<Pt>)
    ensures r.Some? ==> IsFree(r.value, placed) && r.value.x >= MARGIN && r.value.y >= MARGIN
    ensures r.None? <==> forall m :: n <= m < RADIUS_COUNT * ANGLE_COUNT ==>
        !IsFree(NthCandidate(sp, base, orderIndex, m), placed)
    decreases RADIUS_COUNT * ANGLE_COUNT - n
  {
    if n >= RADIUS_COUNT * ANGLE_COUNT then None
    else if IsFree(NthCandidate(sp, base, orderIndex, n), placed) then Some(NthCandidate(sp, base, orderIndex, n))
    else FirstFree(sp, base, placed, orderIndex, n + 1)
  }

  function Grid(orderIndex: nat): Pt {
    Pt(MARGIN + (orderIndex % 6) as real * (CARD_WIDTH + CARD_GAP),
       MARGIN + (orderIndex / 6) as real * (CARD_HEIGHT + CARD_GAP))
  }

  /** Neither the wanted place nor any spiral candidate is free. */
  predicate FallsBack(sp: Spiral, desired: Pt, placed: seq<Pt>, orderIndex: nat) {
    !IsFree(Base(desired), placed) && FirstFree(sp, Base(desired), placed, orderIndex, 0).None?
  }

  function NearestFree(sp: Spiral, desired: Pt, placed: seq<Pt>, orderIndex: nat): Pt {
    if IsFree(Base(desired), placed) then Base(desired)
    else
      match FirstFree(sp, Base(desired), placed, orderIndex, 0)
      case Some(p) => p
      case None => Grid(orderIndex)
  }

  lemma CandidateNumber(ring: nat, step: nat)
    requires step < ANGLE_COUNT
    ensures (ring * ANGLE_COUNT + step) / ANGLE_COUNT == ring && (ring * ANGLE_COUNT + step) % ANGLE_COUNT == step
  {
  }

  lemma SkipTaken(sp: Spiral, base: Pt, placed: seq<Pt>, orderIndex: nat, ring: nat, step: nat, n: nat)
    requires ring < RADIUS_COUNT && step < ANGLE_COUNT && n == ring * ANGLE_COUNT + step
    ensures var candidate := Base(sp(base, orderIndex, 90 + 46 * ring, step));
      FirstFree(sp, base, placed, orderIndex, n)
      == if IsFree(candidate, placed) then Some(candidate) else FirstFree(sp, base, placed, orderIndex, n + 1)
  {
    CandidateNumber(ring, step);
  }

  /** The inner loop: one ring of the spiral. */
  method SearchRing(sp: Spiral, base: Pt, placed: seq<Pt>, orderIndex: nat, radius: int, ghost ring: nat)
    returns (found: Option<Pt>)
    requires ring < RADIUS_COUNT && radius == 90 + 46 * ring
    ensures found.Some? ==> FirstFree(sp, base, placed, orderIndex, ring * ANGLE_COUNT) == found
    ensures found.None? ==>
      FirstFree(sp, base, placed, orderIndex, ring * ANGLE_COUNT)
          == FirstFree(sp, base, placed, orderIndex, (ring + 1) * ANGLE_COUNT)
  {
    ghost var first := ring * ANGLE_COUNT;
    for step := 0 to ANGLE_COUNT
      invariant FirstFree(sp, base, placed, orderIndex, first) == FirstFree(sp, base, placed, orderIndex, first + step)
    {
      SkipTaken(sp, base, placed, orderIndex, ring, step, first + step);
      var candidate := Base(sp(base, orderIndex, radius, step));
      if IsFree(candidate, placed) {
        return Some(candidate);
      }
    }
    found := None;
  }

  method NearestFreePosition(sp: Spiral, desired: Pt, placed: seq<Pt>, orderIndex: nat) returns (p: Pt)
    ensures p == NearestFree(sp, desired, placed, orderIndex)
  {
    var base := Base(desired);
    if IsFree(base, placed) {
      return base;
    }
    var radius := 90;
    ghost var ring := 0;
    while radius <= 2200
      invariant 0 <= ring <= RADIUS_COUNT && radius == 90 + 46 * ring
      invariant FirstFree(sp, base, placed, orderIndex, 0)
          == FirstFree(sp, base, placed, orderIndex, ring * ANGLE_COUNT)
    {
      var found := SearchRing(sp, base, placed, orderIndex, radius, ring);
      if found.Some? {
        return found.value;
      }
      radius := radius + 46;
      ring := ring + 1;
    }
    p := Grid(orderIndex);
  }

  function Desired(positions: map<NodeId, Pt>, id: NodeId): Pt {
    if id in positions then positions[id] else Pt(0.0, 0.0)
  }

  /** The place of card n, given the places of the cards before it. */
  function PlaceOf(sp: Spiral, id: NodeId, positions: map<NodeId, Pt>, pinned: set<NodeId>, before: seq<Pt>,
      n: nat): Pt {
    var desired := Desired(positions, id);
    if id in pinned then desired else NearestFree(sp, desired, before, n)
  }

  /** The places given to the cards, in node order. */
  function Placed(sp: Spiral, ids: seq<NodeId>, positions: map<NodeId, Pt>, pinned: set<NodeId>): (r: seq<Pt>)
    ensures |r| == |ids|
  {
    if ids == [] then []
    else
      var n := |ids| - 1;
      var before := Placed(sp, ids[..n], positions, pinned);
      before + [PlaceOf(sp, ids[n], positions, pinned, before, n)]
  }

  /** `result[nodeId] = position` in node order: a repeated id keeps its last place. */
  function ById(ids: seq<NodeId>, places: seq<Pt>): (r: map<NodeId, Pt>)
    requires |places| == |ids|
    ensures forall id :: id in r <==> id in ids
  {
    if ids == [] then map[]
    else
      var n := |ids| - 1;
      assert ids == ids[..n] + [ids[n]];
      ById(ids[..n], places[..n])[ids[n] := places[n]]
  }

  lemma NextCard(sp: Spiral, ids: seq<NodeId>, positions: map<NodeId, Pt>, pinned: set<NodeId>, i: nat)
    requires i < |ids|
    ensures var before := Placed(sp, ids[..i], positions, pinned);
      var place := PlaceOf(sp, ids[i], positions, pinned, before, i);
      && Placed(sp, ids[..i + 1], positions, pinned) == before + [place]
      && ById(ids[..i + 1], before + [place]) == ById(ids[..i], before)[ids[i] := place]
  {
    assert ids[..i + 1][..i] == ids[..i];
    var before := Placed(sp, ids[..i], positions, pinned);
    assert (before + [PlaceOf(sp, ids[i], positions, pinned, before, i)])[..i] == before;
  }

  method PreventCardOverlap(sp: Spiral, ids: seq<NodeId>, positions: map<NodeId, Pt>, pinned: set<NodeId>)
    returns (result: map<NodeId, Pt>)
    ensures result == ById(ids, Placed(sp, ids, positions, pinned))
  {
    result := map[];
    var placed: seq<Pt> := [];
    for i := 0 to |ids|
      invariant placed == Placed(sp, ids[..i], positions, pinned)
      invariant result == ById(ids[..i], placed)
    {
      NextCard(sp, ids, positions, pinned, i);
      var position := Desired(positions, ids[i]);
      if ids[i] !in pinned {
        position := NearestFreePosition(sp, position, placed, i);
      }
      result := result[ids[i] := position];
      placed := placed + [position];
    }
    assert ids[..|ids|] == ids;
  }

  // ---------- safety ----------

  lemma {:induction false} PlacedPrefix(sp: Spiral, ids: seq<NodeId>, positions: map<NodeId, Pt>,
      pinned: set<NodeId>, j: nat)
    requires j < |ids|
    ensures Placed(sp, ids, positions, pinned)[..j] == Placed(sp, ids[..j], positions, pinned)
    ensures Placed(sp, ids, positions, pinned)[j]
        == PlaceOf(sp, ids[j], positions, pinned, Placed(sp, ids[..j], positions, pinned), j)
  {
    var n := |ids| - 1;
    if j < n {
      PlacedPrefix(sp, ids[..n], positions, pinned, j);
      assert ids[..n][..j] == ids[..j];
    }
  }

  /** Card j was searched a place and found one. */
  ghost predicate Searched(sp: Spiral, ids: seq<NodeId>, positions: map<NodeId, Pt>, pinned: set<NodeId>, j: nat)
    requires j < |ids|
  {
    && ids[j] !in pinned
    && !FallsBack(sp, Desired(positions, ids[j]), Placed(sp, ids, positions, pinned)[..j], j)
  }

  /** A card that was searched a place overlaps no earlier card, whatever those are, and keeps the
      margin. */
  lemma SearchedCardIsFree(sp: Spiral, ids: seq<NodeId>, positions: map<NodeId, Pt>, pinned: set<NodeId>, i: nat,
      j: nat)
    requires i < j < |ids| && Searched(sp, ids, positions, pinned, j)
    ensures var p := Placed(sp, ids, positions, pinned);
      !Overlaps(p[i], p[j]) && p[j].x >= MARGIN && p[j].y >= MARGIN
  {
    PlacedPrefix(sp, ids, positions, pinned, j);
    var p := Placed(sp, ids, positions, pinned);
    assert IsFree(p[j], p[..j]);
    assert p[..j][i] == p[i];
  }

  /** Two fallback places never overlap. */
  lemma GridCellsDisjoint(i: nat, j: nat)
    requires i != j
    ensures !Overlaps(Grid(i), Grid(j))
  {
    if i % 6 == j % 6 {
      assert i / 6 != j / 6;
      GridStep(if i / 6 < j / 6 then i / 6 else j / 6, if i / 6 < j / 6 then j / 6 else i / 6, CARD_HEIGHT + CARD_GAP);
    } else {
      GridStep(if i % 6 < j % 6 then i % 6 else j % 6, if i % 6 < j % 6 then j % 6 else i % 6, CARD_WIDTH + CARD_GAP);
    }
  }

  lemma GridStep(a: nat, b: nat, size: real)
    requires a < b && size > 0.0
    ensures MARGIN + a as real * size + size <= MARGIN + b as real * size
  {
    assert (a as real + 1.0) * size <= b as real * size;
  }

  lemma FallbackCardsDisjoint(sp: Spiral, ids: seq<NodeId>, positions: map<NodeId, Pt>, pinned: set<NodeId>,
      i: nat, j: nat)
    requires i < j < |ids| && ids[i] !in pinned && ids[j] !in pinned
    requires !Searched(sp, ids, positions, pinned, i) && !Searched(sp, ids, positions, pinned, j)
    ensures !Overlaps(Placed(sp, ids, positions, pinned)[i], Placed(sp, ids, positions, pinned)[j])
  {
    PlacedPrefix(sp, ids, positions, pinned, i);
    PlacedPrefix(sp, ids, positions, pinned, j);
    GridCellsDisjoint(i, j);
  }

  ghost predicate NoOverlap(places: seq<Pt>) {
    forall i, j :: 0 <= i < j < |places| ==> !Overlaps(places[i], places[j])
  }

  /** The whole layout is free of overlaps exactly when the cards that were not searched a place,
      the pinned ones and the fallbacks, happen to be free of the cards placed before them. */
  lemma NoOverlapExact(sp: Spiral, ids: seq<NodeId>, positions: map<NodeId, Pt>, pinned: set<NodeId>)
    ensures var p := Placed(sp, ids, positions, pinned);
      NoOverlap(p)
      <==> forall j :: 0 <= j < |ids| && !Searched(sp, ids, positions, pinned, j) ==> IsFree(p[j], p[..j])
  {
    var p := Placed(sp, ids, positions, pinned);
    if forall j :: 0 <= j < |ids| && !Searched(sp, ids, positions, pinned, j) ==> IsFree(p[j], p[..j]) {
      forall i, j | 0 <= i < j < |p| ensures !Overlaps(p[i], p[j]) {
        if Searched(sp, ids, positions, pinned, j) {
          SearchedCardIsFree(sp, ids, positions, pinned, i, j);
        } else {
          assert p[..j][i] == p[i];
        }
      }
    }
  }

  /** The last place in node order of an id. */
  ghost predicate IsLast(ids: seq<NodeId>, id: NodeId, i: nat) {
    i < |ids| && ids[i] == id && forall j :: i < j < |ids| ==> ids[j] != id
  }

  lemma {:induction false} ByIdLast(ids: seq<NodeId>, places: seq<Pt>, id: NodeId, i: nat)
    requires |places| == |ids| && IsLast(ids, id, i)
    ensures id in ById(ids, places) && ById(ids, places)[id] == places[i]
  {
    var n := |ids| - 1;
    if i < n {
      assert forall j :: i < j < n ==> ids[..n][j] == ids[j];
      ByIdLast(ids[..n], places[..n], id, i);
    }
  }

  // ---------- pins first ----------

  /** Every pinned id stands before every id that is not pinned. */
  ghost predicate PinsFirst(ids: seq<NodeId>, pinned: set<NodeId>) {
    forall i, j :: 0 <= i < j < |ids| && ids[j] in pinned ==> ids[i] in pinned
  }

  /** The pinned positions do not overlap each other. */
  ghost predicate PinsFree(ids: seq<NodeId>, positions: map<NodeId, Pt>, pinned: set<NodeId>) {
    forall i, j :: 0 <= i < j < |ids| && ids[i] in pinned && ids[j] in pinned ==>
      !Overlaps(Desired(positions, ids[i]), Desired(positions, ids[j]))
  }

  lemma PinnedAtDesired(sp: Spiral, ids: seq<NodeId>, positions: map<NodeId, Pt>, pinned: set<NodeId>, i: nat)
    requires i < |ids| && ids[i] in pinned
    ensures Placed(sp, ids, positions, pinned)[i] == Desired(positions, ids[i])
  {
    PlacedPrefix(sp, ids, positions, pinned, i);
  }

  /** With the pins first and free of each other, every overlap is made by a card that found no free
      place, and what it covers is pinned or was searched a place. */
  lemma OnlyFallbacksOverlap(sp: Spiral, ids: seq<NodeId>, positions: map<NodeId, Pt>, pinned: set<NodeId>, i: nat,
      j: nat)
    requires PinsFirst(ids, pinned) && PinsFree(ids, positions, pinned) && i < j < |ids|
    requires Overlaps(Placed(sp, ids, positions, pinned)[i], Placed(sp, ids, positions, pinned)[j])
    ensures ids[j] !in pinned && !Searched(sp, ids, positions, pinned, j)
    ensures ids[i] in pinned || Searched(sp, ids, positions, pinned, i)
  {
    if ids[j] in pinned {
      PinnedAtDesired(sp, ids, positions, pinned, i);
      PinnedAtDesired(sp, ids, positions, pinned, j);
      assert false;
    }
    if Searched(sp, ids, positions, pinned, j) {
      SearchedCardIsFree(sp, ids, positions, pinned, i, j);
      assert false;
    }
    if ids[i] !in pinned && !Searched(sp, ids, positions, pinned, i) {
      FallbackCardsDisjoint(sp, ids, positions, pinned, i, j);
      assert false;
    }
  }

  /** With the pins first and no card falling back, the layout is free of overlaps exactly when the
      pins are free of each other. */
  lemma PinsDecide(sp: Spiral, ids: seq<NodeId>, positions: map<NodeId, Pt>, pinned: set<NodeId>)
    requires PinsFirst(ids, pinned)
    requires forall j :: 0 <= j < |ids| && ids[j] !in pinned ==> Searched(sp, ids, positions, pinned, j)
    ensures NoOverlap(Placed(sp, ids, positions, pinned)) <==> PinsFree(ids, positions, pinned)
  {
    var p := Placed(sp, ids, positions, pinned);
    if PinsFree(ids, positions, pinned) {
      forall i, j | 0 <= i < j < |ids| ensures !Overlaps(p[i], p[j]) {
        if Overlaps(p[i], p[j]) {
          OnlyFallbacksOverlap(sp, ids, positions, pinned, i, j);
          assert false;
        }
      }
    }
    if NoOverlap(p) {
      forall i, j | 0 <= i < j < |ids| && ids[i] in pinned && ids[j] in pinned
        ensures !Overlaps(Desired(positions, ids[i]), Desired(positions, ids[j]))
      {
        PinnedAtDesired(sp, ids, positions, pinned, i);
        PinnedAtDesired(sp, ids, positions, pinned, j);
        assert !Overlaps(p[i], p[j]);
      }
    }
  }

  // ---------- when a card cannot fall back ----------

  /** Some step of the card's search goes mostly to the right. */
  ghost predicate HasForwardStep(g: Geometry, orderIndex: nat) {
    exists step: nat :: ForwardStep(g, orderIndex, step)
  }

  predicate ForwardStep(g: Geometry, orderIndex: nat, step: nat) {
    step < ANGLE_COUNT && g.cos(Angle(g, orderIndex, step)) >= 0.9
  }

  /** The rings k at which a candidate at first + gap * k overlaps in x with a card at x. */
  ghost function RingsBlocked(first: real, gap: real, x: real): set<nat> {
    set k: nat | k < RADIUS_COUNT && NearRing(first, gap, k, x)
  }

  predicate NearRing(first: real, gap: real, k: nat, x: real) {
    Near(first + gap * k as real, x)
  }

  predicate Near(a: real, b: real) {
    -(CARD_WIDTH + CARD_GAP) < a - b < CARD_WIDTH + CARD_GAP
  }

  lemma BlockedAreClose(first: real, gap: real, x: real, lo: nat, hi: nat)
    requires gap >= 41.0 && lo <= hi && NearRing(first, gap, lo, x) && NearRing(first, gap, hi, x)
    ensures hi < lo + 14
  {
    var x0, x1 := lo as real, hi as real;
    Spread(gap, x0, x1);
    assert Near(first + gap * x0, x) && Near(first + gap * x1, x);
    assert x1 < x0 + 14.0;
    assert hi as real < (lo + 14) as real;
  }

  lemma Spread(gap: real, a: real, b: real)
    requires gap >= 41.0 && a <= b
    ensures gap * b - gap * a >= 41.0 * (b - a)
  {
    NonNegativeProduct(gap - 41.0, b - a);
    assert (gap - 41.0) * (b - a) == gap * b - gap * a - 41.0 * (b - a);
  }

  lemma {:induction false} Smallest(s: set<nat>) returns (lo: nat)
    requires s != {}
    ensures lo in s && forall k :: k in s ==> lo <= k
    decreases |s|
  {
    var some :| some in s;
    var rest := s - {some};
    lo := some;
    if rest != {} {
      var other := Smallest(rest);
      lo := if other < some then other else some;
    }
    forall k | k in s ensures lo <= k {
      assert k == some || k in rest;
    }
  }

  function Window(lo: nat, n: nat): (r: set<nat>)
    ensures |r| == n
    ensures forall k :: k in r <==> lo <= k < lo + n
  {
    if n == 0 then {} else Window(lo, n - 1) + {lo + n - 1}
  }

  lemma SubsetSize(a: set<nat>, b: set<nat>)
    requires a <= b
    ensures |a| <= |b|
  {
    assert b == a + (b - a);
  }

  /** One card blocks at most 14 of the 46 rings. */
  lemma OneBlocksFew(first: real, gap: real, x: real)
    requires gap >= 41.0
    ensures |RingsBlocked(first, gap, x)| <= 14
  {
    var blocked := RingsBlocked(first, gap, x);
    if blocked != {} {
      var lo := Smallest(blocked);
      forall k | k in blocked ensures k in Window(lo, 14) {
        BlockedAreClose(first, gap, x, lo, k);
      }
      SubsetSize(blocked, Window(lo, 14));
    }
  }

  ghost function AllBlocked(first: real, gap: real, placed: seq<Pt>): set<nat> {
    if placed == [] then {}
    else AllBlocked(first, gap, placed[..|placed| - 1]) + RingsBlocked(first, gap, placed[|placed| - 1].x)
  }

  lemma {:induction false} FewBlocked(first: real, gap: real, placed: seq<Pt>)
    requires gap >= 41.0
    ensures |AllBlocked(first, gap, placed)| <= 14 * |placed|
  {
    if placed != [] {
      FewBlocked(first, gap, placed[..|placed| - 1]);
      OneBlocksFew(first, gap, placed[|placed| - 1].x);
    }
  }

  lemma {:induction false} NotBlocked(first: real, gap: real, placed: seq<Pt>, k: nat, i: nat)
    requires k < RADIUS_COUNT && i < |placed| && k !in AllBlocked(first, gap, placed)
    ensures !NearRing(first, gap, k, placed[i].x)
  {
    var n := |placed| - 1;
    if i < n {
      NotBlocked(first, gap, placed[..n], k, i);
    } else {
      assert k !in RingsBlocked(first, gap, placed[n].x);
    }
  }

  /** Three cards leave a ring open. */
  lemma OpenRing(first: real, gap: real, placed: seq<Pt>) returns (k: nat)
    requires gap >= 41.0 && |placed| <= 3
    ensures k < RADIUS_COUNT && k !in AllBlocked(first, gap, placed)
  {
    FewBlocked(first, gap, placed);
    if Window(0, RADIUS_COUNT) <= AllBlocked(first, gap, placed) {
      SubsetSize(Window(0, RADIUS_COUNT), AllBlocked(first, gap, placed));
      assert false;
    }
    k :| k in Window(0, RADIUS_COUNT) && k !in AllBlocked(first, gap, placed);
  }

  lemma ForwardCandidate(g: Geometry, base: Pt, orderIndex: nat, step: nat, k: nat)
    requires ForwardStep(g, orderIndex, step) && base.x >= MARGIN
    ensures var c := g.cos(Angle(g, orderIndex, step));
      NthCandidate(SpiralOf(g), base, orderIndex, k * ANGLE_COUNT + step).x
      == base.x + 90.0 * c + (46.0 * c) * k as real
  {
    var c := g.cos(Angle(g, orderIndex, step));
    CandidateNumber(k, step);
    var radius := 90 + 46 * k;
    NonNegativeProduct(c, radius as real);
    assert c * radius as real == 90.0 * c + (46.0 * c) * k as real;
  }

  lemma OpenPlace(first: real, gap: real, placed: seq<Pt>) returns (k: nat)
    requires gap >= 41.0 && |placed| <= 3
    ensures k < RADIUS_COUNT && forall i :: 0 <= i < |placed| ==> !Near(first + gap * k as real, placed[i].x)
  {
    k := OpenRing(first, gap, placed);
    forall i | 0 <= i < |placed| ensures !Near(first + gap * k as real, placed[i].x) {
      NotBlocked(first, gap, placed, k, i);
    }
  }

  lemma OpenCandidate(g: Geometry, base: Pt, orderIndex: nat, step: nat, placed: seq<Pt>) returns (n: nat)
    requires ForwardStep(g, orderIndex, step) && base.x >= MARGIN && |placed| <= 3
    ensures n < RADIUS_COUNT * ANGLE_COUNT
    ensures forall i :: 0 <= i < |placed| ==> !Near(NthCandidate(SpiralOf(g), base, orderIndex, n).x, placed[i].x)
  {
    var c := g.cos(Angle(g, orderIndex, step));
    var first, gap := base.x + 90.0 * c, 46.0 * c;
    var k := OpenPlace(first, gap, placed);
    ForwardCandidate(g, base, orderIndex, step, k);
    n := k * ANGLE_COUNT + step;
  }

  /** A card with at most three cards before it never falls back. */
  lemma FewNeverFallBack(g: Geometry, desired: Pt, placed: seq<Pt>, orderIndex: nat)
    requires HasForwardStep(g, orderIndex) && |placed| <= 3
    ensures !FallsBack(SpiralOf(g), desired, placed, orderIndex)
  {
    var step: nat :| ForwardStep(g, orderIndex, step);
    var n := OpenCandidate(g, Base(desired), orderIndex, step, placed);
    OneFreeCandidate(SpiralOf(g), desired, placed, orderIndex, n);
  }

  /** A candidate that no card is near in x. */
  lemma OneFreeCandidate(sp: Spiral, desired: Pt, placed: seq<Pt>, orderIndex: nat, n: nat)
    requires n < RADIUS_COUNT * ANGLE_COUNT
    requires var c := NthCandidate(sp, Base(desired), orderIndex, n);
      forall i :: 0 <= i < |placed| ==> !Near(c.x, placed[i].x)
    ensures !FallsBack(sp, desired, placed, orderIndex)
  {
    assert IsFree(NthCandidate(sp, Base(desired), orderIndex, n), placed);
  }

  /** A layout of up to four cards with the pins first has no overlap exactly when the pins have none. */
  lemma FewCardsDecide(g: Geometry, ids: seq<NodeId>, positions: map<NodeId, Pt>, pinned: set<NodeId>)
    requires PinsFirst(ids, pinned) && |ids| <= 4 && forall n: nat :: n < 4 ==> HasForwardStep(g, n)
    ensures NoOverlap(Placed(SpiralOf(g), ids, positions, pinned)) <==> PinsFree(ids, positions, pinned)
  {
    var sp := SpiralOf(g);
    forall j | 0 <= j < |ids| && ids[j] !in pinned ensures Searched(sp, ids, positions, pinned, j) {
      FewNeverFallBack(g, Desired(positions, ids[j]), Placed(sp, ids, positions, pinned)[..j], j);
    }
    PinsDecide(sp, ids, positions, pinned);
  }

  // ---------- a card that falls back onto another ----------

  /** A place for an unpinned card, not far from the corner. */
  predicate Middling(at: Pt) { 134.0 <= at.x <= 306.0 && 240.0 <= at.y <= 380.0 }

  /** 108 places, 9 to a row, around `at`, that leave no gap for a card, and the grid cell of card 109. */
  function Tile(at: Pt, k: nat): Pt {
    if k >= 108 then Grid(109)
    else Pt(at.x - 142.0 + (k % 9) as real * (CARD_WIDTH + CARD_GAP),
            at.y - 228.0 + (k / 9) as real * (CARD_HEIGHT + CARD_GAP))
  }

  lemma StepsApart(a: nat, b: nat, size: real)
    requires a < b && size > 0.0
    ensures a as real * size + size <= b as real * size
  {
    assert (a as real + 1.0) * size <= b as real * size;
  }

  lemma TilesDisjoint(at: Pt, i: nat, j: nat)
    requires Middling(at) && i < j < 109
    ensures !Overlaps(Tile(at, i), Tile(at, j))
  {
    if j == 108 {
      assert i / 9 <= 11;
      assert (i / 9) as real * (CARD_HEIGHT + CARD_GAP) <= 11.0 * (CARD_HEIGHT + CARD_GAP);
      assert Grid(109).y == MARGIN + 18.0 * (CARD_HEIGHT + CARD_GAP);
    } else if i / 9 < j / 9 {
      StepsApart(i / 9, j / 9, CARD_HEIGHT + CARD_GAP);
    } else {
      StepsApart(i % 9, j % 9, CARD_WIDTH + CARD_GAP);
    }
  }

  /** Which step from `from` on a coordinate falls on; the first one if it is not far before it. */
  lemma NearestStep(v: real, from: real, size: real, steps: nat) returns (k: nat)
    requires size > 0.0 && from - size < v < from + steps as real * size && steps > 0
    ensures k < steps && -size < v - (from + k as real * size) < size
  {
    k := 0;
    while v >= from + k as real * size + size
      invariant k < steps && from + k as real * size - size < v
      decreases steps - k
    {
      assert (k + 1) as real * size == k as real * size + size;
      k := k + 1;
    }
  }

  lemma TileCovers(at: Pt, c: Pt) returns (k: nat)
    requires Middling(at)
    requires MARGIN <= c.x < at.x - 142.0 + 9.0 * (CARD_WIDTH + CARD_GAP)
    requires MARGIN <= c.y < at.y - 228.0 + 12.0 * (CARD_HEIGHT + CARD_GAP)
    ensures k < 108 && Overlaps(c, Tile(at, k))
  {
    var a := NearestStep(c.x, at.x - 142.0, CARD_WIDTH + CARD_GAP, 9);
    var b := NearestStep(c.y, at.y - 228.0, CARD_HEIGHT + CARD_GAP, 12);
    k := 9 * b + a;
    assert k % 9 == a && k / 9 == b;
  }

  lemma NonNegativeProduct(a: real, b: real)
    requires a >= 0.0 && b >= 0.0
    ensures a * b >= 0.0
  {
  }

  lemma RadiusReach(c: real, radius: int)
    requires -1.0 <= c <= 1.0 && 0 <= radius <= 2160
    ensures c * radius as real <= 2160.0
  {
    var r := radius as real;
    NonNegativeProduct(1.0 - c, r);
    assert (1.0 - c) * r == r - c * r;
  }

  ghost predicate UnitBounded(g: Geometry) {
    forall a :: -1.0 <= g.cos(a) <= 1.0 && -1.0 <= g.sin(a) <= 1.0
  }

  lemma SpiralReach(g: Geometry, at: Pt, orderIndex: nat, radius: int, step: nat)
    requires UnitBounded(g) && 0 <= radius <= 2160
    ensures var c := SpiralPoint(g, at, orderIndex, radius, step);
      c.x <= at.x + 2160.0 && c.y <= at.y + 1560.0
  {
    var cx, cy := g.cos(Angle(g, orderIndex, step)), g.sin(Angle(g, orderIndex, step));
    RadiusReach(cx, radius);
    RadiusReach(cy, radius);
  }

  /** Every spiral candidate around `at` lies among the tiles. */
  lemma CandidateInReach(g: Geometry, at: Pt, orderIndex: nat, n: nat)
    requires UnitBounded(g) && Middling(at) && n < RADIUS_COUNT * ANGLE_COUNT
    ensures var c := NthCandidate(SpiralOf(g), at, orderIndex, n);
      MARGIN <= c.x <= at.x + 2160.0 && MARGIN <= c.y <= at.y + 1560.0
  {
    SpiralReach(g, at, orderIndex, 90 + 46 * (n / ANGLE_COUNT), n % ANGLE_COUNT);
  }

  lemma TilesBlock(g: Geometry, at: Pt, tiles: seq<Pt>, orderIndex: nat)
    requires UnitBounded(g) && Middling(at)
    requires |tiles| == 109 && forall k :: 0 <= k < 109 ==> tiles[k] == Tile(at, k)
    ensures FallsBack(SpiralOf(g), at, tiles, orderIndex)
  {
    var k := TileCovers(at, at);
    assert Overlaps(at, tiles[k]);
    forall n | 0 <= n < RADIUS_COUNT * ANGLE_COUNT
      ensures !IsFree(NthCandidate(SpiralOf(g), at, orderIndex, n), tiles)
    {
      CandidateInReach(g, at, orderIndex, n);
      var m := TileCovers(at, NthCandidate(SpiralOf(g), at, orderIndex, n));
      assert Overlaps(NthCandidate(SpiralOf(g), at, orderIndex, n), tiles[m]);
    }
  }

  /** The ids of the example: the first 109 are pinned. */
  ghost predicate FirstPinned(ids: seq<NodeId>, pinned: set<NodeId>) {
    |ids| == 110 && Distinct(ids) && forall i :: 0 <= i < 110 ==> (ids[i] in pinned <==> i < 109)
  }

  /** The pins stand on the tiles around the place that the last card wants. */
  ghost predicate Tiled(ids: seq<NodeId>, positions: map<NodeId, Pt>, at: Pt) {
    |ids| == 110 && forall k :: 0 <= k < 110 ==> Desired(positions, ids[k]) == if k < 109 then Tile(at, k) else at
  }

  lemma TilePinsFree(ids: seq<NodeId>, positions: map<NodeId, Pt>, pinned: set<NodeId>, at: Pt)
    requires FirstPinned(ids, pinned) && Tiled(ids, positions, at) && Middling(at)
    ensures PinsFree(ids, positions, pinned)
  {
    forall i, j | 0 <= i < j < |ids| && ids[i] in pinned && ids[j] in pinned
      ensures !Overlaps(Desired(positions, ids[i]), Desired(positions, ids[j]))
    {
      TilesDisjoint(at, i, j);
    }
  }

  lemma TilesPlaced(sp: Spiral, ids: seq<NodeId>, positions: map<NodeId, Pt>, pinned: set<NodeId>, at: Pt, i: nat)
    requires FirstPinned(ids, pinned) && Tiled(ids, positions, at) && i < 109
    ensures Placed(sp, ids, positions, pinned)[i] == Tile(at, i)
  {
    PinnedAtDesired(sp, ids, positions, pinned, i);
  }

  lemma TilesBefore(sp: Spiral, ids: seq<NodeId>, positions: map<NodeId, Pt>, pinned: set<NodeId>, at: Pt)
    requires FirstPinned(ids, pinned) && Tiled(ids, positions, at)
    ensures var tiles := Placed(sp, ids, positions, pinned)[..109];
      forall k :: 0 <= k < 109 ==> tiles[k] == Tile(at, k)
  {
    forall k | 0 <= k < 109 ensures Placed(sp, ids, positions, pinned)[..109][k] == Tile(at, k) {
      TilesPlaced(sp, ids, positions, pinned, at, k);
    }
  }

  lemma BlockedFallsBack(sp: Spiral, ids: seq<NodeId>, positions: map<NodeId, Pt>, pinned: set<NodeId>, j: nat)
    requires j < |ids| && ids[j] !in pinned
    requires FallsBack(sp, Desired(positions, ids[j]), Placed(sp, ids, positions, pinned)[..j], j)
    ensures Placed(sp, ids, positions, pinned)[j] == Grid(j) && !Searched(sp, ids, positions, pinned, j)
  {
    PlacedPrefix(sp, ids, positions, pinned, j);
  }

  /** With the pins first and free of each other a fallback card may still cover an earlier card: 109 pins
      that close the whole spiral around it and also take its fallback cell. */
  lemma FallbackMayOverlap(g: Geometry, ids: seq<NodeId>, positions: map<NodeId, Pt>, pinned: set<NodeId>, at: Pt)
    requires UnitBounded(g) && FirstPinned(ids, pinned) && Tiled(ids, positions, at) && Middling(at)
    ensures var p := Placed(SpiralOf(g), ids, positions, pinned);
      && PinsFirst(ids, pinned) && PinsFree(ids, positions, pinned)
      && !Searched(SpiralOf(g), ids, positions, pinned, 109)
      && p[108] == p[109] == Grid(109)
  {
    var sp := SpiralOf(g);
    TilePinsFree(ids, positions, pinned, at);
    TilesBefore(sp, ids, positions, pinned, at);
    TilesBlock(g, at, Placed(sp, ids, positions, pinned)[..109], 109);
    BlockedFallsBack(sp, ids, positions, pinned, 109);
    TilesPlaced(sp, ids, positions, pinned, at, 108);
  }

  /** A pinned card may cover a card placed before it: the claim fails when a pin comes later. */
  lemma PinnedCardMayOverlap(sp: Spiral, a: NodeId, b: NodeId, at: Pt, pin: Pt)
    requires a != b && Base(at) == at && Overlaps(at, pin)
    ensures var positions := map[a := at, b := pin];
      Placed(sp, [a, b], positions, {b}) == [at, pin]
  {
    var positions := map[a := at, b := pin];
    var ids, one := [a, b], [a];
    assert ids[..1] == one && one[..0] == [];
    assert Placed(sp, one[..0], positions, {b}) == [];
    assert Placed(sp, one, positions, {b}) == [at];
  }

  /** The same guarantee for the id-keyed result, repeated ids included. */
  lemma LayoutNoOverlap(sp: Spiral, ids: seq<NodeId>, positions: map<NodeId, Pt>, pinned: set<NodeId>, u: NodeId,
      i: nat, v: NodeId, j: nat)
    requires IsLast(ids, u, i) && IsLast(ids, v, j) && i < j
    requires Searched(sp, ids, positions, pinned, j)
    ensures var r := ById(ids, Placed(sp, ids, positions, pinned));
      u in r && v in r && !Overlaps(r[u], r[v]) && r[v].x >= MARGIN && r[v].y >= MARGIN
  {
    ByIdLast(ids, Placed(sp, ids, positions, pinned), u, i);
    ByIdLast(ids, Placed(sp, ids, positions, pinned), v, j);
    SearchedCardIsFree(sp, ids, positions, pinned, i, j);
  }
}
