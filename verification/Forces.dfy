/** What the forces of the layout do to distances, for a distance function that measures them. */
module Forces {
  import opened Sequences
  import opened Outcomes
  import opened CardPlacement
  import opened ForceLayout

  function Minus(a: Pt, b: Pt): Pt { Pt(a.x - b.x, a.y - b.y) }

  /** The distance between two points. */
  function Dist(g: Geometry, a: Pt, b: Pt): real { g.hypot(b.x - a.x, b.y - a.y) }

  // ---------- products ----------

  lemma PositiveProduct(a: real, b: real)
    requires a > 0.0 && b > 0.0
    ensures a * b > 0.0
  {
  }

  lemma SquareOrder(a: real, b: real)
    requires 0.0 <= a < b
    ensures a * a < b * b
  {
    PositiveProduct(b - a, b + a);
    assert (b - a) * (b + a) == b * b - a * a;
  }

  lemma SameSquare(a: real, b: real)
    requires a >= 0.0 && b >= 0.0 && a * a == b * b
    ensures a == b
  {
    if a < b {
      SquareOrder(a, b);
    } else if b < a {
      SquareOrder(b, a);
    }
  }

  lemma LargerSquare(a: real, b: real, aa: real, bb: real)
    requires a >= 0.0 && b >= 0.0 && aa == a * a && bb == b * b && aa > bb
    ensures a > b
  {
    if a < b {
      SquareOrder(a, b);
    }
  }

  lemma ScaledSquares(k: real, x: real, y: real)
    ensures (k * x) * (k * x) + (k * y) * (k * y) == (k * k) * (x * x + y * y)
  {
  }

  lemma SquareOfProduct(k: real, h: real)
    ensures (k * h) * (k * h) == (k * k) * (h * h)
  {
  }

  lemma Swap(d: real, k: real, x: real)
    ensures d * (k * x) == (k * d) * x
  {
  }

  lemma Factor(x: real, w: real, q: real)
    ensures x + w * (x * q) == (1.0 + w * q) * x
  {
  }

  /** Scaling a vector scales its length. */
  lemma HypotScales(g: Geometry, k: real, x: real, y: real)
    requires Euclidean(g) && k >= 0.0
    ensures g.hypot(k * x, k * y) == k * g.hypot(x, y)
  {
    var h := g.hypot(x, y);
    ScaledSquares(k, x, y);
    SquareOfProduct(k, h);
    NonNegativeProduct(k, h);
    SameSquare(g.hypot(k * x, k * y), k * h);
  }

  /** (x', y') is k times (x, y). */
  lemma ScaledVector(g: Geometry, x: real, y: real, x': real, y': real, k: real)
    requires Euclidean(g) && k >= 0.0 && x' == k * x && y' == k * y
    ensures var d, d' := g.hypot(x, y), g.hypot(x', y'); d' == k * d && d * x' == d' * x && d * y' == d' * y
  {
    HypotScales(g, k, x, y);
    Swap(g.hypot(x, y), k, x);
    Swap(g.hypot(x, y), k, y);
  }

  /** The vector (x, y) lengthened by w times its share q, where q of the length d is c. */
  lemma Stretched(g: Geometry, x: real, y: real, x': real, y': real, w: real, q: real, c: real)
    requires Euclidean(g) && q * g.hypot(x, y) == c && g.hypot(x, y) > 0.0 && g.hypot(x, y) + w * c >= 0.0
    requires x' == x + w * (x * q) && y' == y + w * (y * q)
    ensures var d, d' := g.hypot(x, y), g.hypot(x', y'); d' == d + w * c && d * x' == d' * x && d * y' == d' * y
  {
    Factor(x, w, q);
    Factor(y, w, q);
    LengthFactor(g.hypot(x, y), w, q, c);
    ScaledVector(g, x, y, x', y', 1.0 + w * q);
  }

  lemma LengthFactor(d: real, w: real, q: real, c: real)
    requires q * d == c && d > 0.0 && d + w * c >= 0.0
    ensures (1.0 + w * q) * d == d + w * c && 1.0 + w * q >= 0.0
  {
    var k := 1.0 + w * q;
    assert k * d == d + w * (q * d);
    if k < 0.0 {
      PositiveProduct(-k, d);
      Negated(k, d);
    }
  }

  lemma Negated(k: real, d: real)
    ensures (-k) * d == -(k * d)
  {
  }

  // ---------- a force on two cards ----------

  /** How many of two cards are free to move. */
  function Free(a: NodeId, b: NodeId, pinned: set<NodeId>): nat {
    (if a in pinned then 0 else 1) + (if b in pinned then 0 else 1)
  }

  function Ends(n: nat, x: real): real {
    if n == 0 then 0.0 else if n == 1 then x else 2.0 * x
  }

  /** A force d moves b along d and a against it, unless they are pinned; two free cards keep their middle,
      and nothing else moves. */
  lemma ApplyOnVector(view: View, a: NodeId, b: NodeId, d: Pt, pinned: set<NodeId>)
    requires a in view && b in view && a != b
    ensures var after, n := Apply(view, a, b, d, pinned), Free(a, b, pinned);
      && after[b].x - after[a].x == view[b].x - view[a].x + Ends(n, d.x)
      && after[b].y - after[a].y == view[b].y - view[a].y + Ends(n, d.y)
    ensures Balanced(view, Apply(view, a, b, d, pinned), a, b, pinned)
  {
  }

  ghost predicate Balanced(view: View, after: View, a: NodeId, b: NodeId, pinned: set<NodeId>)
    requires a in view && b in view
  {
    && after.Keys == view.Keys
    && (a !in pinned && b !in pinned ==>
          after[a].x + after[b].x == view[a].x + view[b].x && after[a].y + after[b].y == view[a].y + view[b].y)
    && (forall id :: id in view && (id in pinned || id !in {a, b}) ==> after[id] == view[id])
  }

  lemma Fraction(a: real, b: real, c: real)
    requires b > 0.0
    ensures (a / b) * c == a * (c / b) && (c / b) * b == c
  {
  }

  /** p is the share q of the vector v, and q of its length is c. */
  predicate ShareOf(g: Geometry, v: Pt, p: Pt, q: real, c: real) {
    p == Pt(v.x * q, v.y * q) && q * g.hypot(v.x, v.y) == c
  }

  // ---------- one pull ----------

  /** The pull as a share of the vector between the ends. */
  lemma PullIsShare(g: Geometry, source: Pt, target: Pt) returns (q: real)
    requires Dist(g, source, target) >= 1.0
    ensures var d := Dist(g, source, target);
      ShareOf(g, Minus(target, source), Pull(g, source, target), q, 0.025 * (d - 230.0))
  {
    var d := Dist(g, source, target);
    var pull := (d - 230.0) * 0.025;
    q := pull / d;
    Fraction(target.x - source.x, d, pull);
    Fraction(target.y - source.y, d, pull);
  }

  /** What is left of the difference to 230 when n of the ends are free. */
  predicate Pulled(n: nat, d: real, d': real) {
    d' - 230.0 == (if n == 0 then 1.0 else if n == 1 then 0.975 else 0.95) * (d - 230.0)
  }

  ghost predicate SameDirection(v: Pt, v': Pt, d: real, d': real) {
    d * v'.x == d' * v.x && d * v'.y == d' * v.y
  }

  /** A vector v of length d, after a pull p at n of its ends. */
  lemma PulledVector(g: Geometry, v: Pt, v': Pt, p: Pt, n: nat, q: real)
    requires Euclidean(g) && g.hypot(v.x, v.y) >= 1.0 && n <= 2
    requires ShareOf(g, v, p, q, 0.025 * (g.hypot(v.x, v.y) - 230.0))
    requires v'.x == v.x - Ends(n, p.x) && v'.y == v.y - Ends(n, p.y)
    ensures var d, d' := g.hypot(v.x, v.y), g.hypot(v'.x, v'.y); Pulled(n, d, d') && SameDirection(v, v', d, d')
  {
    var d := g.hypot(v.x, v.y);
    if n == 1 {
      Stretched(g, v.x, v.y, v'.x, v'.y, -1.0, q, 0.025 * (d - 230.0));
    } else if n == 2 {
      Stretched(g, v.x, v.y, v'.x, v'.y, -2.0, q, 0.025 * (d - 230.0));
    }
  }

  /** Two cards after a pull: on the line between them, n of them moved. */
  ghost predicate PullsTogether(g: Geometry, view: View, after: View, a: NodeId, b: NodeId, pinned: set<NodeId>)
    requires a in view && b in view
  {
    && Balanced(view, after, a, b, pinned)
    && var d, d' := Dist(g, view[a], view[b]), Dist(g, after[a], after[b]);
       && Pulled(Free(a, b, pinned), d, d')
       && SameDirection(Minus(view[b], view[a]), Minus(after[b], after[a]), d, d')
  }

  lemma PulledBy(g: Geometry, view: View, after: View, a: NodeId, b: NodeId, p: Pt, q: real, pinned: set<NodeId>)
    requires Euclidean(g) && a in view && b in view && a != b && Dist(g, view[a], view[b]) >= 1.0
    requires after == Apply(view, b, a, p, pinned)
    requires ShareOf(g, Minus(view[b], view[a]), p, q, 0.025 * (Dist(g, view[a], view[b]) - 230.0))
    ensures PullsTogether(g, view, after, a, b, pinned)
  {
    ApplyOnVector(view, b, a, p, pinned);
    PulledVector(g, Minus(view[b], view[a]), Minus(after[b], after[a]), p, Free(a, b, pinned), q);
  }

  lemma PullIsApplied(laws: Laws, view: View, e: Edge, ids: seq<NodeId>, pinned: set<NodeId>)
    requires Covers(view, ids) && Connects(e, ids)
    ensures PullEdge(laws, view, e, ids, pinned)
            == Apply(view, e.target, e.source, laws.pull(view[e.source], view[e.target]), pinned)
  {
  }

  /** One pull brings the ends of an edge towards a distance of 230 along the line between them: of the
      difference 95 % are left if both ends are free and 97.5 % if one is. So they approach beyond 230 and
      separate below it; two free ends keep their middle, and nothing else moves. */
  lemma PullLaw(g: Geometry, view: View, e: Edge, ids: seq<NodeId>, pinned: set<NodeId>)
    requires Euclidean(g) && Covers(view, ids) && Connects(e, ids) && e.source != e.target
    requires Dist(g, view[e.source], view[e.target]) >= 1.0
    ensures PullsTogether(g, view, PullEdge(LawsOf(g), view, e, ids, pinned), e.source, e.target, pinned)
  {
    var q := PullIsShare(g, view[e.source], view[e.target]);
    PullIsApplied(LawsOf(g), view, e, ids, pinned);
    var after := PullEdge(LawsOf(g), view, e, ids, pinned);
    PulledBy(g, view, after, e.source, e.target, Pull(g, view[e.source], view[e.target]), q, pinned);
  }

  // ---------- one push ----------

  /** The distance a push goes by: a coordinate in which the cards agree counts as 1. */
  function PushDist(g: Geometry, a: Pt, b: Pt): real {
    g.hypot(OrOne(b.x - a.x), OrOne(b.y - a.y))
  }

  lemma PushIsShare(g: Geometry, a: Pt, b: Pt) returns (q: real)
    requires PushDist(g, a, b) < 160.0
    ensures q > 0.0
    ensures Push(g, a, b) == Pt(OrOne(b.x - a.x) * q, OrOne(b.y - a.y) * q)
    ensures PushDist(g, a, b) >= 1.0 ==> q * PushDist(g, a, b) == 0.02 * (160.0 - PushDist(g, a, b))
  {
    var dist := Max(1.0, PushDist(g, a, b));
    var push := Max(0.0, 160.0 - dist) * 0.02;
    q := push / dist;
    Fraction(OrOne(b.x - a.x), dist, push);
    Fraction(OrOne(b.y - a.y), dist, push);
    assert q > 0.0;
  }

  lemma FarPushIsZero(g: Geometry, a: Pt, b: Pt)
    requires PushDist(g, a, b) >= 160.0
    ensures Push(g, a, b) == Pt(0.0, 0.0)
  {
  }

  /** A number grows in size by one of its own sign. */
  lemma SameSignGrows(x: real, p: real, x': real)
    requires (x >= 0.0 && p > 0.0) || (x < 0.0 && p < 0.0)
    requires x' == x + p
    ensures x' * x' > x * x
  {
    if x >= 0.0 {
      SquareOrder(x, x');
    } else {
      SquareOrder(-x, -x');
      assert (-x) * (-x) == x * x && (-x') * (-x') == x' * x';
    }
  }

  lemma SignOfShare(x: real, q: real)
    requires q > 0.0
    ensures var p := OrOne(x) * q; (x >= 0.0 ==> p > 0.0) && (x < 0.0 ==> p < 0.0)
  {
    if x > 0.0 {
      PositiveProduct(x, q);
    } else if x < 0.0 {
      PositiveProduct(-x, q);
      Negated(x, q);
    }
  }

  lemma LongerVector(g: Geometry, x: real, y: real, x': real, y': real)
    requires Euclidean(g) && x' * x' > x * x && y' * y' > y * y
    ensures g.hypot(x', y') > g.hypot(x, y)
  {
    LargerSquare(g.hypot(x', y'), g.hypot(x, y), x' * x' + y' * y', x * x + y * y);
  }

  /** A vector v after a push p at n of its ends, at least one. */
  lemma PushedVector(g: Geometry, v: Pt, v': Pt, p: Pt, n: nat, q: real)
    requires Euclidean(g) && 1 <= n <= 2 && q > 0.0 && p == Pt(OrOne(v.x) * q, OrOne(v.y) * q)
    requires v'.x == v.x + Ends(n, p.x) && v'.y == v.y + Ends(n, p.y)
    ensures g.hypot(v'.x, v'.y) > g.hypot(v.x, v.y)
  {
    SignOfShare(v.x, q);
    SignOfShare(v.y, q);
    SameSignGrows(v.x, Ends(n, p.x), v'.x);
    SameSignGrows(v.y, Ends(n, p.y), v'.y);
    LongerVector(g, v.x, v.y, v'.x, v'.y);
  }

  lemma PushedBy(g: Geometry, view: View, after: View, a: NodeId, b: NodeId, p: Pt, q: real, pinned: set<NodeId>)
    requires Euclidean(g) && a in view && b in view && a != b && (a !in pinned || b !in pinned) && q > 0.0
    requires after == Apply(view, a, b, p, pinned)
    requires p == Pt(OrOne(view[b].x - view[a].x) * q, OrOne(view[b].y - view[a].y) * q)
    ensures Dist(g, after[a], after[b]) > Dist(g, view[a], view[b])
  {
    ApplyOnVector(view, a, b, p, pinned);
    PushedVector(g, Minus(view[b], view[a]), Minus(after[b], after[a]), p, Free(a, b, pinned), q);
  }

  lemma PushIsApplied(laws: Laws, view: View, a: NodeId, b: NodeId, pinned: set<NodeId>)
    requires a in view && b in view
    ensures PushPair(laws, view, a, b, pinned) == Apply(view, a, b, laws.push(view[a], view[b]), pinned)
  {
  }

  lemma NoShift(view: View, id: NodeId, d: Pt, pinned: set<NodeId>)
    requires id in view && d.x == 0.0 && d.y == 0.0
    ensures Shift(view, id, d, pinned) == view
  {
  }

  lemma NoForce(view: View, a: NodeId, b: NodeId, pinned: set<NodeId>)
    requires a in view && b in view
    ensures Apply(view, a, b, Pt(0.0, 0.0), pinned) == view
  {
    NoShift(view, a, Negate(Pt(0.0, 0.0)), pinned);
    NoShift(view, b, Pt(0.0, 0.0), pinned);
  }

  /** One push separates two cards, at least one of them free, exactly if they are closer than 160 in the
      distance that it goes by; at 160 or more both rest. */
  lemma PushLaw(g: Geometry, view: View, a: NodeId, b: NodeId, pinned: set<NodeId>)
    requires Euclidean(g) && a in view && b in view && a != b && (a !in pinned || b !in pinned)
    ensures var after := PushPair(LawsOf(g), view, a, b, pinned);
      && (PushDist(g, view[a], view[b]) < 160.0 ==> Dist(g, after[a], after[b]) > Dist(g, view[a], view[b]))
      && (PushDist(g, view[a], view[b]) >= 160.0 ==> after == view)
  {
    PushIsApplied(LawsOf(g), view, a, b, pinned);
    if PushDist(g, view[a], view[b]) < 160.0 {
      var q := PushIsShare(g, view[a], view[b]);
      var after := PushPair(LawsOf(g), view, a, b, pinned);
      PushedBy(g, view, after, a, b, Push(g, view[a], view[b]), q, pinned);
    } else {
      FarPushIsZero(g, view[a], view[b]);
      NoForce(view, a, b, pinned);
    }
  }

  /** What is left of the difference to 160 when n of the cards are free. */
  predicate Pushed(n: nat, d: real, d': real) {
    160.0 - d' == (if n == 0 then 1.0 else if n == 1 then 0.98 else 0.96) * (160.0 - d)
  }

  lemma PushedAmount(g: Geometry, v: Pt, v': Pt, p: Pt, n: nat, q: real)
    requires Euclidean(g) && 1.0 <= g.hypot(v.x, v.y) < 160.0 && n <= 2
    requires ShareOf(g, v, p, q, 0.02 * (160.0 - g.hypot(v.x, v.y)))
    requires v'.x == v.x + Ends(n, p.x) && v'.y == v.y + Ends(n, p.y)
    ensures var d, d' := g.hypot(v.x, v.y), g.hypot(v'.x, v'.y); Pushed(n, d, d') && SameDirection(v, v', d, d')
  {
    var d := g.hypot(v.x, v.y);
    if n == 1 {
      Stretched(g, v.x, v.y, v'.x, v'.y, 1.0, q, 0.02 * (160.0 - d));
    } else if n == 2 {
      Stretched(g, v.x, v.y, v'.x, v'.y, 2.0, q, 0.02 * (160.0 - d));
    }
  }

  lemma AmountBy(g: Geometry, view: View, after: View, a: NodeId, b: NodeId, p: Pt, q: real, pinned: set<NodeId>)
    requires Euclidean(g) && a in view && b in view && a != b && 1.0 <= Dist(g, view[a], view[b]) < 160.0
    requires after == Apply(view, a, b, p, pinned)
    requires ShareOf(g, Minus(view[b], view[a]), p, q, 0.02 * (160.0 - Dist(g, view[a], view[b])))
    ensures PushesApart(g, view, after, a, b, pinned)
  {
    ApplyOnVector(view, a, b, p, pinned);
    PushedAmount(g, Minus(view[b], view[a]), Minus(after[b], after[a]), p, Free(a, b, pinned), q);
  }

  ghost predicate PushesApart(g: Geometry, view: View, after: View, a: NodeId, b: NodeId, pinned: set<NodeId>)
    requires a in view && b in view
  {
    && Balanced(view, after, a, b, pinned)
    && var d, d' := Dist(g, view[a], view[b]), Dist(g, after[a], after[b]);
       && Pushed(Free(a, b, pinned), d, d')
       && SameDirection(Minus(view[b], view[a]), Minus(after[b], after[a]), d, d')
  }

  /** How far: two cards that agree in no coordinate and are between 1 and 160 apart move along the line
      between them until 96 % of the difference to 160 are left, or 98 % if one is pinned. */
  lemma PushAmount(g: Geometry, view: View, a: NodeId, b: NodeId, pinned: set<NodeId>)
    requires Euclidean(g) && a in view && b in view && a != b
    requires view[a].x != view[b].x && view[a].y != view[b].y && 1.0 <= Dist(g, view[a], view[b]) < 160.0
    ensures PushesApart(g, view, PushPair(LawsOf(g), view, a, b, pinned), a, b, pinned)
  {
    var q := PushIsShare(g, view[a], view[b]);
    PushIsApplied(LawsOf(g), view, a, b, pinned);
    AmountBy(g, view, PushPair(LawsOf(g), view, a, b, pinned), a, b, Push(g, view[a], view[b]), q, pinned);
  }

  // ---------- a pair of cards settles ----------

  lemma PushDistAtLeast(g: Geometry, a: Pt, b: Pt)
    requires Euclidean(g) && Dist(g, a, b) >= 160.0
    ensures PushDist(g, a, b) >= 160.0
  {
    OneOrMore(b.x - a.x);
    OneOrMore(b.y - a.y);
    NotShorter(g, b.x - a.x, b.y - a.y, OrOne(b.x - a.x), OrOne(b.y - a.y));
  }

  lemma NotShorter(g: Geometry, x: real, y: real, x': real, y': real)
    requires Euclidean(g) && g.hypot(x, y) >= 160.0 && x' * x' >= x * x && y' * y' >= y * y
    ensures g.hypot(x', y') >= 160.0
  {
    SquareAtMost(g.hypot(x, y), x * x + y * y);
    LongEnough(g.hypot(x', y'), x' * x', y' * y', x * x, y * y);
  }

  lemma LongEnough(h: real, ox: real, oy: real, xx: real, yy: real)
    requires h >= 0.0 && h * h == ox + oy && ox >= xx && oy >= yy && xx + yy >= 25600.0
    ensures h >= 160.0
  {
    SquareAtLeast(h, ox + oy);
  }

  lemma OneOrMore(x: real)
    ensures OrOne(x) * OrOne(x) >= x * x
  {
  }

  lemma SquareAtMost(h: real, square: real)
    requires h >= 160.0 && h * h == square
    ensures square >= 25600.0
  {
    NonNegativeProduct(h - 160.0, h + 160.0);
    assert (h - 160.0) * (h + 160.0) == h * h - 25600.0;
  }

  /** The rest of a difference x after n rounds that leave 95 % each. */
  function Rest(n: nat, x: real): real {
    if n == 0 then x else 0.95 * Rest(n - 1, x)
  }

  /** Two cards that are too far apart to push each other. */
  ghost predicate FarPair(g: Geometry, view: View, a: NodeId, b: NodeId) {
    a != b && a in view && b in view && Dist(g, view[a], view[b]) >= 160.0
  }

  lemma PairRests(g: Geometry, view: View, a: NodeId, b: NodeId)
    requires Euclidean(g) && FarPair(g, view, a, b)
    ensures Covers(view, [a, b]) && PushRows(LawsOf(g), view, [a, b], 2, {}) == view
  {
    var laws, ids := LawsOf(g), [a, b];
    PushDistAtLeast(g, view[a], view[b]);
    PushLaw(g, view, a, b, {});
    assert PushRow(laws, view, ids, 0, 1, {}) == view;
    assert PushRow(laws, view, ids, 0, 2, {}) == view;
    assert PushRows(laws, view, ids, 0, {}) == view;
    assert PushRows(laws, view, ids, 1, {}) == view;
    assert PushRow(laws, view, ids, 1, 2, {}) == view;
  }

  lemma OneEdge(laws: Laws, view: View, e: Edge, ids: seq<NodeId>, pinned: set<NodeId>)
    requires Covers(view, ids)
    ensures PullEdges(laws, view, [e], ids, pinned) == PullEdge(laws, view, e, ids, pinned)
  {
    assert [e][..0] == [];
    assert PullEdges(laws, view, [e][..0], ids, pinned) == view;
  }

  lemma IterationSettles(g: Geometry, view: View, a: NodeId, b: NodeId)
    requires Euclidean(g) && FarPair(g, view, a, b)
    ensures Covers(view, [a, b])
    ensures var after := Iteration(LawsOf(g), view, [a, b], [Edge(a, b)], {});
      FarPair(g, after, a, b) && Dist(g, after[a], after[b]) - 230.0 == 0.95 * (Dist(g, view[a], view[b]) - 230.0)
  {
    PairRests(g, view, a, b);
    OneEdge(LawsOf(g), view, Edge(a, b), [a, b], {});
    PullLaw(g, view, Edge(a, b), [a, b], {});
  }

  /** Two free cards joined by an edge and 160 or more apart: after n iterations 0.95 to the n of their
      difference to a distance of 230 are left. */
  lemma {:induction false} PairSettles(g: Geometry, view: View, a: NodeId, b: NodeId, n: nat)
    requires Euclidean(g) && FarPair(g, view, a, b)
    ensures Covers(view, [a, b])
    ensures var after := Simulate(LawsOf(g), view, [a, b], [Edge(a, b)], {}, n);
      && FarPair(g, after, a, b)
      && Dist(g, after[a], after[b]) - 230.0 == Rest(n, Dist(g, view[a], view[b]) - 230.0)
  {
    if n > 0 {
      PairSettles(g, view, a, b, n - 1);
      IterationSettles(g, Simulate(LawsOf(g), view, [a, b], [Edge(a, b)], {}, n - 1), a, b);
    }
  }

  /** Where an evidence card and a conflict card are seeded. */
  lemma EdgeSeeds(g: Geometry, nodes: seq<Node>, a: NodeId, b: NodeId)
    requires UnitBounded(g) && Euclidean(g) && a != b
    requires nodes == [Node(a, "evidence"), Node(b, "conflict")]
    ensures FarPair(g, Seeds(LawsOf(g), nodes, map[], 2), a, b)
  {
    var laws, view := LawsOf(g), Seeds(LawsOf(g), nodes, map[], 2);
    assert Ids(nodes) == [a, b];
    SeedsAt(laws, nodes, map[], 2, 0);
    SeedsAt(laws, nodes, map[], 2, 1);
    assert nodes[..0] == [] && nodes[..1] == [Node(a, "evidence")];
    NoneOfKind(nodes[..1], "conflict");
    assert view[a] == OnRing(g, ClusterCenter("evidence"), 0, 0);
    assert view[b] == OnRing(g, ClusterCenter("conflict"), 0, 1);
    FirstRing(g, ClusterCenter("evidence"), 0);
    FirstRing(g, ClusterCenter("conflict"), 1);
    var x, y := view[b].x - view[a].x, view[b].y - view[a].y;
    AtLeastSquare(x, 160.0);
    AtLeastSquare(y, 0.0);
    SquareAtLeast(Dist(g, view[a], view[b]), x * x + y * y);
  }

  lemma NoneOfKind(nodes: seq<Node>, kind: string)
    requires |nodes| == 1 && NormalizeType(nodes[0].nodeType) != kind
    ensures Seen(nodes, map[], kind) == 0
  {
    assert nodes[..0] == [];
  }

  lemma FirstRing(g: Geometry, center: Pt, index: nat)
    requires UnitBounded(g)
    ensures center.x - 86.0 <= OnRing(g, center, 0, index).x <= center.x + 86.0
  {
    var c := g.cos(RingAngle(g, 0, index));
    assert OnRing(g, center, 0, index).x == center.x + c * 1.0 * 86.0;
  }

  /** Through the whole simulation: an evidence card and a conflict card joined by an edge have come to a
      distance of 230 up to 0.95 to the 80 of the difference they were seeded with. */
  lemma EdgeSettles(g: Geometry, nodes: seq<Node>, a: NodeId, b: NodeId)
    requires UnitBounded(g) && Euclidean(g) && a != b
    requires nodes == [Node(a, "evidence"), Node(b, "conflict")]
    ensures var seeds := Seeds(LawsOf(g), nodes, map[], 2);
      var relaxed := Relaxed(LawsOf(g), nodes, [Edge(a, b)], map[]);
      && a in seeds && b in seeds && a in relaxed && b in relaxed
      && Dist(g, relaxed[a], relaxed[b]) - 230.0 == Rest(80, Dist(g, seeds[a], seeds[b]) - 230.0)
  {
    EdgeSeeds(g, nodes, a, b);
    PairSettles(g, Seeds(LawsOf(g), nodes, map[], 2), a, b, 80);
    RelaxedPair(LawsOf(g), nodes, [Edge(a, b)], a, b);
  }

  lemma RelaxedPair(laws: Laws, nodes: seq<Node>, edges: seq<Edge>, a: NodeId, b: NodeId)
    requires |nodes| == 2 && nodes[0].id == a && nodes[1].id == b
    ensures Covers(Seeds(laws, nodes, map[], 2), [a, b])
    ensures Relaxed(laws, nodes, edges, map[]) == Simulate(laws, Seeds(laws, nodes, map[], 2), [a, b], edges, {}, 80)
  {
    assert Ids(nodes) == [a, b];
    var none: View := map[];
    assert none.Keys == {};
  }
}
