/** Where a batch's scores end up when batches answer with fewer items than documents. */
module RerankPlaces {
  import opened Outcomes
  import opened Sequences
  import opened StableSort
  import opened Rerank

  // ---------- where a batch's scores start ----------

  /** How many scores the batches before m have contributed. */
  function PieceStart<D>(batches: seq<seq<D>>, answers: seq<Answer>, acceptsScores: bool, m: nat): nat
    requires m <= |batches| == |answers|
  {
    |PositionalScores(batches[..m], answers[..m], acceptsScores)|
  }

  lemma StartNext<D>(batches: seq<seq<D>>, answers: seq<Answer>, acceptsScores: bool, m: nat)
    requires m < |batches| == |answers|
    ensures PieceStart(batches, answers, acceptsScores, m + 1)
            == PieceStart(batches, answers, acceptsScores, m) + |PositionalPiece(batches[m], answers[m], acceptsScores)|
  {
    PositionalNext(batches, answers, acceptsScores, m);
  }

  lemma {:induction false} FullBatchesStart<D>(batches: seq<seq<D>>, answers: seq<Answer>, acceptsScores: bool,
      size: nat, m: nat)
    requires m <= |batches| == |answers|
    requires forall i :: 0 <= i < m ==> |PositionalPiece(batches[i], answers[i], acceptsScores)| == size
    ensures PieceStart(batches, answers, acceptsScores, m) == m * size
  {
    if m > 0 {
      FullBatchesStart(batches, answers, acceptsScores, size, m - 1);
      StartNext(batches, answers, acceptsScores, m - 1);
      BatchShift(m - 1, size);
    }
  }

  /** The scores of every batch start at its first document exactly when every batch before the last
      contributed one score per document, for any answers at all. */
  lemma StartsInPlaceExact<D>(docs: seq<D>, size: nat, answers: seq<Answer>, acceptsScores: bool)
    requires size > 0 && |answers| == |Batches(docs, size)|
    ensures var batches := Batches(docs, size);
      (forall m :: 0 <= m < |batches| ==> PieceStart(batches, answers, acceptsScores, m) == m * size)
      <==> forall i :: 0 <= i < |batches| - 1 ==>
          |PositionalPiece(batches[i], answers[i], acceptsScores)| == |batches[i]|
  {
    var batches := Batches(docs, size);
    forall i | 0 <= i < |batches| - 1 ensures |batches[i]| == size {
      FullBatch(docs, size, i);
    }
    if forall m :: 0 <= m < |batches| ==> PieceStart(batches, answers, acceptsScores, m) == m * size {
      forall i | 0 <= i < |batches| - 1
        ensures |PositionalPiece(batches[i], answers[i], acceptsScores)| == size
      {
        assert PieceStart(batches, answers, acceptsScores, i + 1) == (i + 1) * size;
        StartNext(batches, answers, acceptsScores, i);
        BatchShift(i, size);
      }
    }
    if forall i :: 0 <= i < |batches| - 1 ==> |PositionalPiece(batches[i], answers[i], acceptsScores)| == |batches[i]| {
      forall m | 0 <= m < |batches| ensures PieceStart(batches, answers, acceptsScores, m) == m * size {
        FullBatchesStart(batches, answers, acceptsScores, size, m);
      }
    }
  }

  /** Every batch but the last holds size documents. */
  lemma FullBatch<D>(docs: seq<D>, size: nat, i: nat)
    requires size > 0 && i + 1 < |Batches(docs, size)|
    ensures |Batches(docs, size)[i]| == size
  {
    BatchAt(docs, size, i);
    BatchAt(docs, size, i + 1);
    BatchShift(i, size);
  }

  // ---------- answers with distinct indices ----------

  /** What a batch answers, before it is scored: nothing, or items with these indices. */
  datatype Shape = Lost | Given(indices: seq<nat>)

  /** The answer of a batch whose first document is `start`, scored by g. */
  function Reply(shape: Shape, start: nat, g: nat -> real): Answer {
    match shape
    case Lost => Failed
    case Given(indices) => Results(Map(ItemAt(start, g), indices))
  }

  function ItemAt(start: nat, g: nat -> real): nat -> Item {
    (k: nat) => Item(Some(k), Some(g(start + k)))
  }

  function Replies(shapes: seq<Shape>, size: nat, g: nat -> real): (r: seq<Answer>)
    ensures |r| == |shapes|
    ensures forall m :: 0 <= m < |r| ==> r[m] == Reply(shapes[m], m * size, g)
  {
    seq(|shapes|, m requires 0 <= m < |shapes| => Reply(shapes[m], m * size, g))
  }

  /** Indices that name documents of a batch of n, each at most once. */
  ghost predicate Proper(shape: Shape, n: nat) {
    shape.Given? ==> Distinct(shape.indices) && forall k :: k in shape.indices ==> k < n
  }

  ghost predicate AllProper<D>(batches: seq<seq<D>>, shapes: seq<Shape>) {
    |shapes| == |batches| && forall m :: 0 <= m < |shapes| ==> Proper(shapes[m], |batches[m]|)
  }

  function Ascending(k: nat): real { -(k as real) }

  function Sorted(indices: seq<nat>): (r: seq<nat>)
    ensures |r| == |indices|
  {
    SortDesc(indices, Ascending)
  }

  lemma SortedRises(indices: seq<nat>, a: nat, b: nat)
    requires Distinct(indices) && a < b < |indices|
    ensures Sorted(indices)[a] < Sorted(indices)[b]
  {
    SortPermutes(indices, Ascending);
    SortDescending(indices, Ascending);
    PermutationDistinct(indices, Sorted(indices));
    assert Ascending(Sorted(indices)[a]) >= Ascending(Sorted(indices)[b]);
  }

  lemma {:induction false} SortedAtLeast(indices: seq<nat>, r: nat)
    requires Distinct(indices) && r < |indices|
    ensures Sorted(indices)[r] >= r
  {
    if r > 0 {
      SortedAtLeast(indices, r - 1);
      SortedRises(indices, r - 1, r);
    }
  }

  lemma {:induction false} NoGapBelow(indices: seq<nat>, j: nat, k: nat)
    requires Distinct(indices) && k <= j < |indices| && Sorted(indices)[j] == j
    ensures Sorted(indices)[k] == k && k in indices
    decreases j - k
  {
    SortedAtLeast(indices, k);
    if k < j {
      NoGapBelow(indices, j, k + 1);
      SortedRises(indices, k, k + 1);
    }
    SortMember(indices, Ascending, Sorted(indices)[k]);
  }

  lemma {:induction false} NoGapPlaces(indices: seq<nat>, j: nat)
    requires Distinct(indices) && forall k :: 0 <= k <= j ==> k in indices
    ensures j < |indices| && Sorted(indices)[j] == j
  {
    SortMember(indices, Ascending, j);
    var q :| 0 <= q < |indices| && Sorted(indices)[q] == j;
    SortedAtLeast(indices, q);
    if j > 0 {
      NoGapPlaces(indices, j - 1);
      if q < j - 1 {
        SortedRises(indices, q, j - 1);
      }
    }
  }

  lemma ReplyPiece<D>(batch: seq<D>, shape: Shape, start: nat, g: nat -> real, acceptsScores: bool)
    requires shape.Given?
    ensures var piece := PositionalPiece(batch, Reply(shape, start, g), acceptsScores);
      && |piece| == |shape.indices|
      && forall r :: 0 <= r < |piece| ==> piece[r] == g(start + Sorted(shape.indices)[r])
  {
    SortMap(shape.indices, ItemAt(start, g), Ascending, ByIndex);
  }

  /** The piece a shape produces in a batch of n documents from `start` on. */
  ghost predicate PieceShaped(piece: seq<real>, shape: Shape, start: nat, n: nat, g: nat -> real) {
    match shape
    case Lost => |piece| == n && forall r :: 0 <= r < n ==> piece[r] == FAILED_SCORE
    case Given(indices) =>
      && |piece| == |indices| <= n
      && forall r :: 0 <= r < |indices| ==> piece[r] == g(start + Sorted(indices)[r])
  }

  lemma ReplyShaped<D>(batch: seq<D>, shape: Shape, start: nat, g: nat -> real, acceptsScores: bool)
    requires Proper(shape, |batch|)
    ensures PieceShaped(PositionalPiece(batch, Reply(shape, start, g), acceptsScores), shape, start, |batch|, g)
  {
    if shape.Given? {
      ReplyPiece(batch, shape, start, g, acceptsScores);
      if shape.indices != [] {
        SortedAtLeast(shape.indices, |shape.indices| - 1);
        SortMember(shape.indices, Ascending, Sorted(shape.indices)[|shape.indices| - 1]);
      }
    }
  }

  // ---------- which documents get their own score ----------

  /** A batch that failed, or answered with all its documents. */
  predicate Whole(shape: Shape, n: nat) {
    shape.Lost? || |shape.indices| == n
  }

  /** The batches before d's were whole, and d's batch misses no index up to d's own. */
  ghost predicate Unshifted(size: nat, shapes: seq<Shape>, d: nat)
    requires size > 0
  {
    && d / size < |shapes|
    && (forall i :: 0 <= i < d / size ==> Whole(shapes[i], size))
    && shapes[d / size].Given?
    && forall k :: 0 <= k <= d % size ==> k in shapes[d / size].indices
  }

  /** Batches of the given size, the last one possibly smaller. */
  ghost predicate Sized<D>(batches: seq<seq<D>>, size: nat) {
    forall i :: 0 <= i < |batches| ==> |batches[i]| <= size && (i + 1 < |batches| ==> |batches[i]| == size)
  }

  lemma BatchesSized<D>(docs: seq<D>, size: nat)
    requires size > 0
    ensures Sized(Batches(docs, size), size)
  {
    var batches := Batches(docs, size);
    forall i | 0 <= i < |batches| ensures |batches[i]| <= size && (i + 1 < |batches| ==> |batches[i]| == size) {
      BatchFits(docs, size, i);
      if i + 1 < |batches| {
        FullBatch(docs, size, i);
      }
    }
  }

  lemma BatchFits<D>(docs: seq<D>, size: nat, i: nat)
    requires size > 0 && i < |Batches(docs, size)|
    ensures |Batches(docs, size)[i]| <= size
  {
    BatchAt(docs, size, i);
    BatchShift(i, size);
  }

  /** What each batch contributes when the batches answer in these shapes. */
  ghost predicate Shaped<D>(pieces: seq<seq<real>>, batches: seq<seq<D>>, shapes: seq<Shape>, size: nat,
      g: nat -> real) {
    && |pieces| == |batches| == |shapes|
    && Sized(batches, size)
    && AllProper(batches, shapes)
    && forall i :: 0 <= i < |pieces| ==> PieceShaped(pieces[i], shapes[i], i * size, |batches[i]|, g)
  }

  lemma {:induction false} StartExact<D>(pieces: seq<seq<real>>, batches: seq<seq<D>>, shapes: seq<Shape>, size: nat,
      g: nat -> real, m: nat)
    requires Shaped(pieces, batches, shapes, size, g) && m < |pieces|
    ensures |Flatten(pieces[..m])| <= m * size
    ensures |Flatten(pieces[..m])| == m * size <==> forall i :: 0 <= i < m ==> Whole(shapes[i], size)
  {
    if m > 0 {
      StartExact(pieces, batches, shapes, size, g, m - 1);
      FlattenNext(pieces, m - 1);
      BatchShift(m - 1, size);
      assert PieceShaped(pieces[m - 1], shapes[m - 1], (m - 1) * size, size, g);
    }
  }

  /** Slot s of the first m pieces is entry r of piece i. */
  lemma {:induction false} SlotOf(pieces: seq<seq<real>>, m: nat, s: nat) returns (i: nat, r: nat)
    requires m <= |pieces| && s < |Flatten(pieces[..m])|
    ensures i < m && r < |pieces[i]| && |Flatten(pieces[..i])| + r == s
    ensures Flatten(pieces[..m])[s] == pieces[i][r]
  {
    FlattenNext(pieces, m - 1);
    var start := |Flatten(pieces[..m - 1])|;
    if s < start {
      i, r := SlotOf(pieces, m - 1, s);
    } else {
      i, r := m - 1, s - start;
    }
  }

  lemma {:induction false} SlotKept(pieces: seq<seq<real>>, i: nat, r: nat, m: nat)
    requires i < m <= |pieces| && r < |pieces[i]|
    ensures |Flatten(pieces[..i])| + r < |Flatten(pieces[..m])|
    ensures Flatten(pieces[..m])[|Flatten(pieces[..i])| + r] == pieces[i][r]
  {
    FlattenNext(pieces, m - 1);
    if i < m - 1 {
      SlotKept(pieces, i, r, m - 1);
    }
  }

  lemma UnshiftedKeeps<D>(pieces: seq<seq<real>>, batches: seq<seq<D>>, shapes: seq<Shape>, size: nat, g: nat -> real,
      d: nat, m: nat, j: nat)
    requires Shaped(pieces, batches, shapes, size, g)
    requires size > 0 && Unshifted(size, shapes, d) && m == d / size && j == d % size && d == m * size + j
    ensures d < |Flatten(pieces)| && Flatten(pieces)[d] == g(d)
  {
    StartExact(pieces, batches, shapes, size, g, m);
    NoGapPlaces(shapes[m].indices, j);
    SlotKept(pieces, m, j, |pieces|);
    assert pieces[..|pieces|] == pieces;
  }

  /** Scores 1 for d and 0 for every other document. */
  function Only(d: nat): nat -> real {
    (p: nat) => if p == d then 1.0 else 0.0
  }

  lemma BatchAndIndex(size: nat, d: nat) returns (m: nat, j: nat)
    requires size > 0
    ensures m == d / size && j == d % size && d == m * size + j
  {
    m, j := d / size, d % size;
  }

  lemma SameBatch(size: nat, i: nat, k: nat, d: nat)
    requires size > 0 && k < size && i * size + k == d
    ensures i == d / size && k == d % size
  {
    BatchShift(i, size);
    BatchOf(size, d, i);
  }

  /** Only d's own entry scores 1, and it does not stand behind its index. */
  lemma OnlyOwnScoresOne(piece: seq<real>, shape: Shape, start: nat, n: nat, d: nat, r: nat)
    requires Proper(shape, n) && PieceShaped(piece, shape, start, n, Only(d))
    requires r < |piece| && piece[r] == 1.0
    ensures shape.Given? && r < |shape.indices|
    ensures r <= Sorted(shape.indices)[r] < n && start + Sorted(shape.indices)[r] == d
  {
    assert shape.Given?;
    SortMember(shape.indices, Ascending, Sorted(shape.indices)[r]);
    SortedAtLeast(shape.indices, r);
  }

  lemma KeptIsUnshifted<D>(pieces: seq<seq<real>>, batches: seq<seq<D>>, shapes: seq<Shape>, size: nat, d: nat)
    requires size > 0 && Shaped(pieces, batches, shapes, size, Only(d))
    requires d < |Flatten(pieces)| && Flatten(pieces)[d] == 1.0
    ensures Unshifted(size, shapes, d)
  {
    assert pieces[..|pieces|] == pieces;
    var i, r := SlotOf(pieces, |pieces|, d);
    OnlyOwnScoresOne(pieces[i], shapes[i], i * size, |batches[i]|, d, r);
    var indices := shapes[i].indices;
    SameBatch(size, i, Sorted(indices)[r], d);
    StartExact(pieces, batches, shapes, size, Only(d), i);
    forall k | 0 <= k <= r ensures k in indices {
      NoGapBelow(indices, r, k);
    }
  }

  // ---------- reassembly by position ----------

  /** What each batch contributes. */
  function Pieces<D>(batches: seq<seq<D>>, answers: seq<Answer>, acceptsScores: bool): (r: seq<seq<real>>)
    requires |answers| == |batches|
    ensures |r| == |batches|
  {
    seq(|batches|, i requires 0 <= i < |batches| => PositionalPiece(batches[i], answers[i], acceptsScores))
  }

  lemma PieceAt<D>(batches: seq<seq<D>>, answers: seq<Answer>, acceptsScores: bool, i: nat)
    requires i < |batches| == |answers|
    ensures Pieces(batches, answers, acceptsScores)[i] == PositionalPiece(batches[i], answers[i], acceptsScores)
  {
  }

  lemma {:induction false} ScoresAreFlat<D>(batches: seq<seq<D>>, answers: seq<Answer>, acceptsScores: bool, m: nat)
    requires m <= |batches| == |answers|
    ensures PositionalScores(batches[..m], answers[..m], acceptsScores)
        == Flatten(Pieces(batches, answers, acceptsScores)[..m])
  {
    if m > 0 {
      ScoresAreFlat(batches, answers, acceptsScores, m - 1);
      PositionalNext(batches, answers, acceptsScores, m - 1);
      PieceAt(batches, answers, acceptsScores, m - 1);
      FlattenNext(Pieces(batches, answers, acceptsScores), m - 1);
    }
  }

  lemma AllFlat<D>(batches: seq<seq<D>>, answers: seq<Answer>, acceptsScores: bool)
    requires |batches| == |answers|
    ensures PositionalScores(batches, answers, acceptsScores) == Flatten(Pieces(batches, answers, acceptsScores))
  {
    assert batches[..|batches|] == batches && answers[..|batches|] == answers;
    assert Pieces(batches, answers, acceptsScores)[..|batches|] == Pieces(batches, answers, acceptsScores);
    ScoresAreFlat(batches, answers, acceptsScores, |batches|);
  }

  lemma PieceIsShaped<D>(batches: seq<seq<D>>, shapes: seq<Shape>, size: nat, g: nat -> real, acceptsScores: bool,
      i: nat)
    requires AllProper(batches, shapes) && i < |batches|
    ensures PieceShaped(Pieces(batches, Replies(shapes, size, g), acceptsScores)[i], shapes[i], i * size,
                        |batches[i]|, g)
  {
    PieceAt(batches, Replies(shapes, size, g), acceptsScores, i);
    ReplyShaped(batches[i], shapes[i], i * size, g, acceptsScores);
  }

  lemma RepliesShaped<D>(batches: seq<seq<D>>, shapes: seq<Shape>, size: nat, g: nat -> real, acceptsScores: bool)
    returns (pieces: seq<seq<real>>)
    requires Sized(batches, size) && AllProper(batches, shapes)
    ensures pieces == Pieces(batches, Replies(shapes, size, g), acceptsScores)
    ensures Shaped(pieces, batches, shapes, size, g)
  {
    pieces := Pieces(batches, Replies(shapes, size, g), acceptsScores);
    forall i | 0 <= i < |batches| ensures PieceShaped(pieces[i], shapes[i], i * size, |batches[i]|, g) {
      PieceIsShaped(batches, shapes, size, g, acceptsScores, i);
    }
  }

  /** Document d ends up with its own score after reassembly by position. */
  ghost predicate OwnByPosition<D>(docs: seq<D>, size: nat, shapes: seq<Shape>, acceptsScores: bool, d: nat,
      g: nat -> real)
    requires size > 0 && |shapes| == |Batches(docs, size)| && d < |docs|
  {
    Fit(PositionalScores(Batches(docs, size), Replies(shapes, size, g), acceptsScores), |docs|)[d] == g(d)
  }

  /** The flat scores with their shape, and d's slot in them. */
  lemma FlatScores<D>(docs: seq<D>, size: nat, shapes: seq<Shape>, acceptsScores: bool, d: nat, g: nat -> real)
    returns (pieces: seq<seq<real>>)
    requires size > 0 && AllProper(Batches(docs, size), shapes) && d < |docs|
    ensures Shaped(pieces, Batches(docs, size), shapes, size, g)
    ensures OwnByPosition(docs, size, shapes, acceptsScores, d, g)
            <==> g(d) == if d < |Flatten(pieces)| then Flatten(pieces)[d] else 0.0
  {
    BatchesSized(docs, size);
    pieces := RepliesShaped(Batches(docs, size), shapes, size, g, acceptsScores);
    AllFlat(Batches(docs, size), Replies(shapes, size, g), acceptsScores);
  }

  lemma UnshiftedIsOwn<D>(docs: seq<D>, size: nat, shapes: seq<Shape>, acceptsScores: bool, d: nat, g: nat -> real)
    requires size > 0 && AllProper(Batches(docs, size), shapes) && d < |docs| && Unshifted(size, shapes, d)
    ensures OwnByPosition(docs, size, shapes, acceptsScores, d, g)
  {
    var pieces := FlatScores(docs, size, shapes, acceptsScores, d, g);
    var m, j := BatchAndIndex(size, d);
    UnshiftedKeeps(pieces, Batches(docs, size), shapes, size, g, d, m, j);
  }

  lemma OwnIsUnshifted<D>(docs: seq<D>, size: nat, shapes: seq<Shape>, acceptsScores: bool, d: nat)
    requires size > 0 && AllProper(Batches(docs, size), shapes) && d < |docs|
    requires OwnByPosition(docs, size, shapes, acceptsScores, d, Only(d))
    ensures Unshifted(size, shapes, d)
  {
    var pieces := FlatScores(docs, size, shapes, acceptsScores, d, Only(d));
    KeptIsUnshifted(pieces, Batches(docs, size), shapes, size, d);
  }

  /** DeepInfra and vLLM: a document gets its own score, whatever the scorer, exactly when the batches
      before its own were whole and its batch misses neither it nor an earlier document. */
  lemma PositionalOwnExact<D>(docs: seq<D>, size: nat, shapes: seq<Shape>, acceptsScores: bool, d: nat)
    requires size > 0 && AllProper(Batches(docs, size), shapes) && d < |docs|
    ensures (forall g: nat -> real :: OwnByPosition(docs, size, shapes, acceptsScores, d, g))
        <==> Unshifted(size, shapes, d)
  {
    if Unshifted(size, shapes, d) {
      forall g: nat -> real ensures OwnByPosition(docs, size, shapes, acceptsScores, d, g) {
        UnshiftedIsOwn(docs, size, shapes, acceptsScores, d, g);
      }
    }
    if OwnByPosition(docs, size, shapes, acceptsScores, d, Only(d)) {
      OwnIsUnshifted(docs, size, shapes, acceptsScores, d);
    }
  }

  // ---------- by global index ----------

  /** Document d ends up with its own score after reassembly by index. */
  ghost predicate OwnByIndex(n: nat, size: nat, shapes: seq<Shape>, d: nat, g: nat -> real)
    requires d < n
  {
    GlobalScores(n, size, Replies(shapes, size, g))[d] == g(d)
  }

  /** d's batch answered for it. */
  ghost predicate Answered(size: nat, shapes: seq<Shape>, d: nat)
    requires size > 0
  {
    d / size < |shapes| && shapes[d / size].Given? && d % size in shapes[d / size].indices
  }

  function Targets(n: nat, g: nat -> real): (r: seq<real>)
    ensures |r| == n
    ensures forall d :: 0 <= d < n ==> r[d] == g(d)
  {
    seq(n, d requires 0 <= d < n => g(d))
  }

  lemma TouchesOwn(indices: seq<nat>, start: nat, g: nat -> real, k: nat)
    ensures Touches(Map(ItemAt(start, g), indices), start, start + k) <==> k in indices
  {
    var items := Map(ItemAt(start, g), indices);
    if k in indices {
      var j :| 0 <= j < |indices| && indices[j] == k;
      assert start + IndexOf(items[j]) == start + k;
    }
  }

  lemma ReplyAgrees(indices: seq<nat>, start: nat, g: nat -> real, n: nat)
    requires forall k :: k in indices ==> start + k < n
    ensures var items := Map(ItemAt(start, g), indices);
      forall j :: 0 <= j < |items| ==>
        0 <= start + IndexOf(items[j]) < n && ScoreOf(items[j]) == Targets(n, g)[start + IndexOf(items[j])]
  {
    forall j | 0 <= j < |indices| ensures start + indices[j] < n {
      assert indices[j] in indices;
    }
  }

  lemma TouchedPlace(indices: seq<nat>, start: nat, size: nat, g: nat -> real, d: nat)
    requires forall k :: k in indices ==> k < size
    requires Touches(Map(ItemAt(start, g), indices), start, d)
    ensures start <= d < start + size && d - start in indices
  {
    var items := Map(ItemAt(start, g), indices);
    var j :| 0 <= j < |items| && start + IndexOf(items[j]) == d;
    assert indices[j] in indices;
  }

  lemma TouchesInBatch(indices: seq<nat>, size: nat, i: nat, g: nat -> real, d: nat)
    requires size > 0 && forall k :: k in indices ==> k < size
    ensures Touches(Map(ItemAt(i * size, g), indices), i * size, d) <==> d / size == i && d % size in indices
  {
    var start, items := i * size, Map(ItemAt(i * size, g), indices);
    if Touches(items, start, d) {
      TouchedPlace(indices, start, size, g, d);
      SameBatch(size, i, d - start, d);
    }
    if d / size == i {
      var m, k := BatchAndIndex(size, d);
      TouchesOwn(indices, start, g, k);
    }
  }

  /** The indices of batch i name documents among n. */
  ghost predicate InRange(shape: Shape, i: nat, size: nat, n: nat) {
    shape.Given? ==> forall k :: k in shape.indices ==> k < size && i * size + k < n
  }

  /** One batch writes the scores of the documents it names. */
  lemma WriteReply(scores: seq<real>, size: nat, i: nat, shape: Shape, g: nat -> real, d: nat)
    requires size > 0 && d < |scores| && InRange(shape, i, size, |scores|)
    ensures WriteAnswer(scores, i * size, Reply(shape, i * size, g))[d]
            == if shape.Given? && d / size == i && d % size in shape.indices then g(d) else scores[d]
  {
    if shape.Given? {
      ReplyAgrees(shape.indices, i * size, g, |scores|);
      TouchesInBatch(shape.indices, size, i, g, d);
      WriteItemsAgree(scores, i * size, Map(ItemAt(i * size, g), shape.indices), Targets(|scores|, g), d);
    }
  }

  lemma NamesInRange<D>(docs: seq<D>, size: nat, m: nat, shape: Shape)
    requires size > 0 && m < |Batches(docs, size)| && Proper(shape, |Batches(docs, size)[m]|)
    ensures InRange(shape, m, size, |docs|)
  {
    BatchFits(docs, size, m);
    BatchAt(docs, size, m);
  }

  lemma AnsweredNext(size: nat, shapes: seq<Shape>, d: nat)
    requires size > 0 && shapes != []
    ensures var m := |shapes| - 1;
      Answered(size, shapes, d) <==>
      if d / size == m then shapes[m].Given? && d % size in shapes[m].indices else Answered(size, shapes[..m], d)
  {
  }

  /** The scores after the last batch, from the scores before it. */
  lemma GlobalStep(n: nat, size: nat, shapes: seq<Shape>, g: nat -> real)
    requires shapes != []
    ensures var m := |shapes| - 1;
      GlobalScores(n, size, Replies(shapes, size, g))
      == WriteAnswer(GlobalScores(n, size, Replies(shapes[..m], size, g)), m * size, Reply(shapes[m], m * size, g))
  {
    var m := |shapes| - 1;
    assert Replies(shapes, size, g)[..m] == Replies(shapes[..m], size, g);
  }

  lemma {:induction false} GlobalReplies(n: nat, size: nat, shapes: seq<Shape>, g: nat -> real, d: nat)
    requires size > 0 && d < n && forall m :: 0 <= m < |shapes| ==> InRange(shapes[m], m, size, n)
    ensures GlobalScores(n, size, Replies(shapes, size, g))[d] == if Answered(size, shapes, d) then g(d) else 0.0
  {
    if shapes != [] {
      var m := |shapes| - 1;
      GlobalReplies(n, size, shapes[..m], g, d);
      GlobalStep(n, size, shapes, g);
      WriteReply(GlobalScores(n, size, Replies(shapes[..m], size, g)), size, m, shapes[m], g, d);
      AnsweredNext(size, shapes, d);
    }
  }

  /** SiliconFlow: a document gets its own score, whatever the scorer, exactly when its own batch
      answered for it; other batches and other documents do not matter. */
  lemma GlobalOwnExact<D>(docs: seq<D>, size: nat, shapes: seq<Shape>, d: nat)
    requires size > 0 && AllProper(Batches(docs, size), shapes) && d < |docs|
    ensures (forall g: nat -> real :: OwnByIndex(|docs|, size, shapes, d, g)) <==> Answered(size, shapes, d)
  {
    forall m | 0 <= m < |shapes| ensures InRange(shapes[m], m, size, |docs|) {
      NamesInRange(docs, size, m, shapes[m]);
    }
    forall g: nat -> real
      ensures OwnByIndex(|docs|, size, shapes, d, g) <==> Answered(size, shapes, d) || g(d) == 0.0
    {
      GlobalReplies(|docs|, size, shapes, g, d);
    }
    if forall g: nat -> real :: OwnByIndex(|docs|, size, shapes, d, g) {
      assert OwnByIndex(|docs|, size, shapes, d, Only(d));
    }
  }

  /** A successful batch that answers with too few items shifts the scores of later batches when they
      are reassembled by position, not when they are written by index. */
  lemma ShortAnswerShifts()
    ensures var docs := ["a", "b", "c"];
      var answers := [Results([Item(Some(1), Some(0.9))]), Results([Item(Some(0), Some(0.8))])];
      && |Batches(docs, 2)| == |answers|
      && Fit(PositionalScores(Batches(docs, 2), answers, true), 3) == [0.9, 0.8, 0.0]
      && GlobalScores(3, 2, answers) == [0.0, 0.9, 0.8]
  {
    var docs: seq<string> := ["a", "b", "c"];
    var first, second := Results([Item(Some(1), Some(0.9))]), Results([Item(Some(0), Some(0.8))]);
    var answers := [first, second];
    assert Batches(docs[2..], 2) == [docs[2..]] == [["c"]];
    assert Batches(docs, 2) == [docs[..2]] + Batches(docs[2..], 2);
    assert docs[..2] == ["a", "b"];
    var batches: seq<seq<string>> := Batches(docs, 2);
    assert batches[..1] == [["a", "b"]] && answers[..1] == [first];
    assert batches[..1][..0] == [] && answers[..1][..0] == [];
    SingleItem(Item(Some(1), Some(0.9)));
    SingleItem(Item(Some(0), Some(0.8)));
    assert PositionalScores(batches[..1], answers[..1], true) == [0.9];
    assert PositionalScores(batches, answers, true) == [0.9, 0.8];
    assert GlobalScores(3, 2, answers[..1][..0]) == [0.0, 0.0, 0.0];
    assert first.items[..0] == [] && second.items[..0] == [];
    var zeros := [0.0, 0.0, 0.0];
    assert WriteItems(zeros, 0, first.items) == [0.0, 0.9, 0.0] by {
      assert WriteItems(zeros, 0, first.items[..0]) == zeros;
    }
    assert GlobalScores(3, 2, answers[..1]) == WriteAnswer(zeros, 0, first) == [0.0, 0.9, 0.0];
    var once := [0.0, 0.9, 0.0];
    assert WriteItems(once, 2, second.items) == [0.0, 0.9, 0.8] by {
      assert WriteItems(once, 2, second.items[..0]) == once;
    }
  }

  lemma SingleItem(item: Item)
    ensures ByPosition([item]) == [ScoreOf(item)]
  {
    var one := [item];
    assert one[..0] == [];
    assert SortDesc(one, ByIndex) == [item];
  }
}
