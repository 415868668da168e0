/** Python's `list.sort(key=..., reverse=True)`: a stable sort, larger keys first. */
module StableSort {
  import opened Sequences

  function Insert<T>(t: seq<T>, x: T, key: T -> real): (r: seq<T>)
    ensures |r| == |t| + 1
  {
    if t == [] then [x]
    else if key(t[|t| - 1]) >= key(x) then t + [x]
    else Insert(t[..|t| - 1], x, key) + [t[|t| - 1]]
  }

  function SortDesc<T>(s: seq<T>, key: T -> real): (r: seq<T>)
    ensures |r| == |s|
  {
    if s == [] then [] else Insert(SortDesc(s[..|s| - 1], key), s[|s| - 1], key)
  }

  ghost predicate Descending<T>(s: seq<T>, key: T -> real) {
    forall i, j :: 0 <= i < j < |s| ==> key(s[i]) >= key(s[j])
  }

  ghost predicate KeysDiffer<T>(s: seq<T>, key: T -> real) {
    forall i, j :: 0 <= i < j < |s| ==> key(s[i]) != key(s[j])
  }

  lemma PrefixOrdered<T>(s: seq<T>, key: T -> real)
    requires s != []
    ensures Descending(s, key) ==> Descending(s[..|s| - 1], key)
    ensures KeysDiffer(s, key) ==> KeysDiffer(s[..|s| - 1], key)
  {
  }

  /** The elements of s whose key is v, in their order in s. */
  function WithKey<T>(s: seq<T>, key: T -> real, v: real): seq<T> {
    if s == [] then []
    else WithKey(s[..|s| - 1], key, v) + (if key(s[|s| - 1]) == v then [s[|s| - 1]] else [])
  }

  /** What Python promises of a sort: ordered, and equal keys stay in their input order. */
  ghost predicate IsStableSort<T(!new)>(r: seq<T>, s: seq<T>, key: T -> real) {
    && Descending(r, key)
    && forall v :: WithKey(r, key, v) == WithKey(s, key, v)
  }

  lemma InsertPermutes<T>(t: seq<T>, x: T, key: T -> real)
    ensures multiset(Insert(t, x, key)) == multiset(t) + multiset{x}
  {
    if t != [] {
      assert t == t[..|t| - 1] + [t[|t| - 1]];
    }
  }

  lemma {:induction false} SortPermutes<T>(s: seq<T>, key: T -> real)
    ensures multiset(SortDesc(s, key)) == multiset(s)
    ensures forall x :: x in SortDesc(s, key) <==> x in s
  {
    if s != [] {
      SortPermutes(s[..|s| - 1], key);
      InsertPermutes(SortDesc(s[..|s| - 1], key), s[|s| - 1], key);
      assert s == s[..|s| - 1] + [s[|s| - 1]];
      assert multiset(SortDesc(s, key)) == multiset(s);
    }
    SameMultisetSameMembers(SortDesc(s, key), s);
  }

  lemma {:induction false} InsertDescending<T>(t: seq<T>, x: T, key: T -> real)
    requires Descending(t, key)
    ensures Descending(Insert(t, x, key), key)
  {
    if t != [] && key(t[|t| - 1]) < key(x) {
      var t' := t[..|t| - 1];
      InsertDescending(t', x, key);
      var r := Insert(t', x, key);
      forall i | 0 <= i < |r| ensures key(r[i]) >= key(t[|t| - 1]) {
        InsertPermutes(t', x, key);
        assert r[i] in multiset(t') + multiset{x};
      }
    }
  }

  lemma {:induction false} SortDescending<T>(s: seq<T>, key: T -> real)
    ensures Descending(SortDesc(s, key), key)
  {
    if s != [] {
      SortDescending(s[..|s| - 1], key);
      InsertDescending(SortDesc(s[..|s| - 1], key), s[|s| - 1], key);
    }
  }

  lemma {:induction false} InsertWithKey<T>(t: seq<T>, x: T, key: T -> real, v: real)
    ensures WithKey(Insert(t, x, key), key, v) == WithKey(t + [x], key, v)
  {
    assert (t + [x])[..|t|] == t;
    if t == [] {
    } else if key(t[|t| - 1]) < key(x) {
      var t' := t[..|t| - 1];
      InsertWithKey(t', x, key, v);
      assert (t' + [x])[..|t'|] == t';
      var r := Insert(t', x, key);
      assert (r + [t[|t| - 1]])[..|r|] == r;
    }
  }

  lemma {:induction false} SortWithKey<T>(s: seq<T>, key: T -> real, v: real)
    ensures WithKey(SortDesc(s, key), key, v) == WithKey(s, key, v)
  {
    if s != [] {
      var s' := s[..|s| - 1];
      SortWithKey(s', key, v);
      InsertWithKey(SortDesc(s', key), s[|s| - 1], key, v);
      var t := SortDesc(s', key) + [s[|s| - 1]];
      assert t[..|t| - 1] == SortDesc(s', key);
    }
  }

  lemma SortIsStable<T(!new)>(s: seq<T>, key: T -> real)
    ensures IsStableSort(SortDesc(s, key), s, key)
  {
    SortDescending(s, key);
    forall v { SortWithKey(s, key, v); }
  }

  lemma WithKeyMember<T>(s: seq<T>, key: T -> real, v: real)
    ensures WithKey(s, key, v) != [] ==> exists i :: 0 <= i < |s| && key(s[i]) == v
    ensures s != [] && key(s[|s| - 1]) == v ==> WithKey(s, key, v) != []
  {
    if s != [] && key(s[|s| - 1]) != v {
      WithKeyMember(s[..|s| - 1], key, v);
      if WithKey(s, key, v) != [] {
        var i :| 0 <= i < |s| - 1 && key(s[..|s| - 1][i]) == v;
        assert key(s[i]) == v;
      }
    }
  }

  /** Lists that agree on every key's elements end in the same key. */
  lemma StableLastKey<T>(a: seq<T>, b: seq<T>, key: T -> real)
    requires a != [] && b != [] && Descending(a, key) && Descending(b, key)
    requires var v, w := key(a[|a| - 1]), key(b[|b| - 1]);
      WithKey(a, key, v) == WithKey(b, key, v) && WithKey(a, key, w) == WithKey(b, key, w)
    ensures key(a[|a| - 1]) == key(b[|b| - 1])
  {
    var v, w := key(a[|a| - 1]), key(b[|b| - 1]);
    WithKeyMember(a, key, v);
    WithKeyMember(b, key, v);
    WithKeyMember(b, key, w);
    WithKeyMember(a, key, w);
  }

  /** Dropping the last element from both keeps the agreement on key w. */
  lemma StableTail<T>(a: seq<T>, b: seq<T>, key: T -> real, w: real)
    requires a != [] && b != [] && key(a[|a| - 1]) == key(b[|b| - 1])
    requires WithKey(a, key, w) == WithKey(b, key, w)
    ensures WithKey(a[..|a| - 1], key, w) == WithKey(b[..|b| - 1], key, w)
    ensures w == key(a[|a| - 1]) ==> a[|a| - 1] == b[|b| - 1]
  {
    var p, q := WithKey(a[..|a| - 1], key, w), WithKey(b[..|b| - 1], key, w);
    if w == key(a[|a| - 1]) {
      assert p + [a[|a| - 1]] == q + [b[|b| - 1]];
      assert p == (p + [a[|a| - 1]])[..|p|] && q == (q + [b[|b| - 1]])[..|q|];
    } else {
      assert p + [] == p && q + [] == q;
    }
  }

  /** Whatever algorithm sorts stably, it returns SortDesc's list. */
  lemma {:induction false} StableSortUnique<T(!new)>(a: seq<T>, b: seq<T>, key: T -> real)
    requires Descending(a, key) && Descending(b, key)
    requires forall v :: WithKey(a, key, v) == WithKey(b, key, v)
    ensures a == b
    decreases |a|
  {
    if a == [] {
      if b != [] {
        WithKeyMember(b, key, key(b[|b| - 1]));
      }
    } else {
      WithKeyMember(a, key, key(a[|a| - 1]));
      StableLastKey(a, b, key);
      StableTail(a, b, key, key(a[|a| - 1]));
      var a', b' := a[..|a| - 1], b[..|b| - 1];
      forall w ensures WithKey(a', key, w) == WithKey(b', key, w) {
        StableTail(a, b, key, w);
      }
      PrefixOrdered(a, key);
      PrefixOrdered(b, key);
      StableSortUnique(a', b', key);
      assert a == a' + [a[|a| - 1]] && b == b' + [b[|b| - 1]];
    }
  }

  lemma SortedIsFixed<T>(s: seq<T>, key: T -> real)
    requires Descending(s, key)
    ensures SortDesc(s, key) == s
  {
    if s != [] {
      var s' := s[..|s| - 1];
      assert s == s' + [s[|s| - 1]];
      SortedIsFixed(s', key);
    }
  }

  lemma {:induction false} InsertKeepsOrder<T>(t: seq<T>, z: T, key: T -> real, x: T, y: T)
    requires Precedes(t, x, y)
    ensures Precedes(Insert(t, z, key), x, y)
  {
    var i, j :| 0 <= i < j < |t| && t[i] == x && t[j] == y;
    if key(t[|t| - 1]) >= key(z) {
      var r := t + [z];
      assert r[i] == x && r[j] == y;
    } else {
      var t' := t[..|t| - 1];
      var r := Insert(t', z, key);
      InsertPermutes(t', z, key);
      if j < |t'| {
        assert t'[i] == x && t'[j] == y;
        InsertKeepsOrder(t', z, key, x, y);
        var a, b :| 0 <= a < b < |r| && r[a] == x && r[b] == y;
        assert (r + [t[|t| - 1]])[a] == x && (r + [t[|t| - 1]])[b] == y;
      } else {
        assert t'[i] == x && x in multiset(r);
        var a :| 0 <= a < |r| && r[a] == x;
        assert (r + [t[|t| - 1]])[a] == x && (r + [t[|t| - 1]])[|r|] == y;
      }
    }
  }

  lemma {:induction false} InsertedAfter<T>(t: seq<T>, z: T, key: T -> real, x: T)
    requires Descending(t, key)
    requires x in t && key(x) >= key(z)
    ensures Precedes(Insert(t, z, key), x, z)
  {
    var last := t[|t| - 1];
    if key(last) >= key(z) {
      var i :| 0 <= i < |t| && t[i] == x;
      assert (t + [z])[i] == x && (t + [z])[|t|] == z;
    } else {
      var t' := t[..|t| - 1];
      InsertedAfter(t', z, key, x);
      var r := Insert(t', z, key);
      var a, b :| 0 <= a < b < |r| && r[a] == x && r[b] == z;
      assert (r + [last])[a] == x && (r + [last])[b] == z;
    }
  }

  lemma SortMember<T>(s: seq<T>, key: T -> real, x: T)
    ensures x in SortDesc(s, key) <==> x in s
  {
    SortPermutes(s, key);
  }

  /** An element keeps standing before a later one unless the later one has a larger key. */
  lemma {:induction false} EarlierAndNoSmaller<T>(s: seq<T>, key: T -> real, i: nat, j: nat)
    requires i < j < |s| && key(s[i]) >= key(s[j])
    ensures Precedes(SortDesc(s, key), s[i], s[j])
  {
    var s', last := s[..|s| - 1], s[|s| - 1];
    assert s'[i] == s[i];
    if j == |s| - 1 {
      SortMember(s', key, s'[i]);
      SortDescending(s', key);
      InsertedAfter(SortDesc(s', key), last, key, s[i]);
    } else {
      EarlierAndNoSmaller(s', key, i, j);
      InsertKeepsOrder(SortDesc(s', key), last, key, s[i], s[j]);
    }
  }

  /** In a descending list the larger of two keys stands first. */
  lemma DescendingPrecedes<T>(r: seq<T>, key: T -> real, x: T, y: T)
    requires Descending(r, key) && x in r && y in r && key(x) > key(y)
    ensures Precedes(r, x, y)
  {
    var i :| 0 <= i < |r| && r[i] == x;
    var j :| 0 <= j < |r| && r[j] == y;
    assert i < j;
  }

  lemma LargerKeyFirst<T>(s: seq<T>, key: T -> real, x: T, y: T)
    requires x in s && y in s && key(x) > key(y)
    ensures Precedes(SortDesc(s, key), x, y)
  {
    SortMember(s, key, x);
    SortMember(s, key, y);
    SortDescending(s, key);
    DescendingPrecedes(SortDesc(s, key), key, x, y);
  }

  /** In a duplicate-free input, the sort puts s[i] before s[j] exactly when its key is larger,
      or equal with i < j. */
  lemma SortOrderExact<T>(s: seq<T>, key: T -> real, i: nat, j: nat)
    requires Distinct(s)
    requires i < |s| && j < |s| && i != j
    ensures Precedes(SortDesc(s, key), s[i], s[j])
            <==> key(s[i]) > key(s[j]) || (key(s[i]) == key(s[j]) && i < j)
  {
    SortPermutes(s, key);
    PermutationDistinct(s, SortDesc(s, key));
    if key(s[i]) > key(s[j]) {
      LargerKeyFirst(s, key, s[i], s[j]);
    } else if key(s[i]) == key(s[j]) && i < j {
      EarlierAndNoSmaller(s, key, i, j);
    } else if key(s[i]) == key(s[j]) {
      EarlierAndNoSmaller(s, key, j, i);
    } else {
      LargerKeyFirst(s, key, s[j], s[i]);
    }
  }

  lemma {:induction false} InsertMap<S, T>(t: seq<S>, x: S, f: S -> T, key: S -> real, key': T -> real)
    requires key'(f(x)) == key(x)
    requires forall y :: y in t ==> key'(f(y)) == key(y)
    ensures Insert(Map(f, t), f(x), key') == Map(f, Insert(t, x, key))
  {
    if t != [] {
      var last := t[|t| - 1];
      var t' := t[..|t| - 1];
      assert Map(f, t)[..|t| - 1] == Map(f, t');
      if key(last) < key(x) {
        InsertMap(t', x, f, key, key');
      }
    }
  }

  /** Sorting commutes with relabelling the elements, as long as the keys agree. */
  lemma {:induction false} SortMap<S, T>(s: seq<S>, f: S -> T, key: S -> real, key': T -> real)
    requires forall y :: y in s ==> key'(f(y)) == key(y)
    ensures SortDesc(Map(f, s), key') == Map(f, SortDesc(s, key))
  {
    if s != [] {
      var s' := s[..|s| - 1];
      assert Map(f, s)[..|s| - 1] == Map(f, s');
      SortMap(s', f, key, key');
      SortPermutes(s', key);
      assert forall y :: y in s' ==> y in s;
      forall y | y in SortDesc(s', key) ensures key'(f(y)) == key(y) {
        assert y in multiset(SortDesc(s', key));
        assert y in multiset(s');
      }
      InsertMap(SortDesc(s', key), s[|s| - 1], f, key, key');
    }
  }

  lemma SameLast<T>(a: seq<T>, b: seq<T>, key: T -> real)
    requires multiset(a) == multiset(b) && a != [] && b != []
    requires Descending(a, key) && Descending(b, key) && KeysDiffer(a, key)
    ensures a[|a| - 1] == b[|b| - 1]
  {
    var x, y := a[|a| - 1], b[|b| - 1];
    SameMultisetSameMembers(a, b);
    assert x in b && y in a;
    var p :| 0 <= p < |a| && a[p] == y;
    var q :| 0 <= q < |b| && b[q] == x;
    assert key(a[p]) >= key(x) && key(b[q]) >= key(y);
  }

  /** With distinct keys, any ordered permutation is the sorted list. */
  lemma {:induction false} DistinctKeysUnique<T>(a: seq<T>, b: seq<T>, key: T -> real)
    requires multiset(a) == multiset(b)
    requires Descending(a, key) && Descending(b, key) && KeysDiffer(a, key)
    ensures a == b
    decreases |a|
  {
    SameMultisetSameLength(a, b);
    if a != [] {
      SameLast(a, b, key);
      PrefixOrdered(a, key);
      PrefixOrdered(b, key);
      DropLastMultiset(a);
      DropLastMultiset(b);
      DistinctKeysUnique(a[..|a| - 1], b[..|b| - 1], key);
    }
  }

  // ---------- where the sort puts each element ----------

  /** How many elements have a key above v, and how many a key of at least v. */
  function CountAbove<T>(s: seq<T>, key: T -> real, v: real): nat {
    if s == [] then 0
    else CountAbove(s[..|s| - 1], key, v) + if key(s[|s| - 1]) > v then 1 else 0
  }

  function CountAtLeast<T>(s: seq<T>, key: T -> real, v: real): nat {
    if s == [] then 0
    else CountAtLeast(s[..|s| - 1], key, v) + if key(s[|s| - 1]) >= v then 1 else 0
  }

  /** The place of s[i] in the sorted list: behind all larger keys and the earlier equal ones. */
  function Place<T>(s: seq<T>, key: T -> real, i: nat): nat
    requires i < |s|
  {
    CountAtLeast(s[..i], key, key(s[i])) + CountAbove(s[i + 1..], key, key(s[i]))
  }

  lemma {:induction false} InsertCounts<T>(t: seq<T>, x: T, key: T -> real, v: real)
    ensures CountAtLeast(Insert(t, x, key), key, v) == CountAtLeast(t, key, v) + if key(x) >= v then 1 else 0
  {
    if t == [] || key(t[|t| - 1]) >= key(x) {
      assert (t + [x])[..|t|] == t;
      assert Insert(t, x, key) == t + [x];
    } else {
      var t', last := t[..|t| - 1], t[|t| - 1];
      InsertCounts(t', x, key, v);
      assert (Insert(t', x, key) + [last])[..|t|] == Insert(t', x, key);
    }
  }

  lemma {:induction false} SortCounts<T>(s: seq<T>, key: T -> real, v: real)
    ensures CountAtLeast(SortDesc(s, key), key, v) == CountAtLeast(s, key, v)
  {
    if s != [] {
      SortCounts(s[..|s| - 1], key, v);
      InsertCounts(SortDesc(s[..|s| - 1], key), s[|s| - 1], key, v);
    }
  }

  /** In a descending list exactly the first CountAtLeast(v) keys are at least v. */
  lemma {:induction false} CountSplits<T>(t: seq<T>, key: T -> real, v: real, p: nat)
    requires Descending(t, key) && p < |t|
    ensures CountAtLeast(t, key, v) <= |t|
    ensures key(t[p]) >= v <==> p < CountAtLeast(t, key, v)
  {
    var rest, last := t[..|t| - 1], t[|t| - 1];
    PrefixOrdered(t, key);
    if rest != [] {
      CountSplits(rest, key, v, if p < |rest| then p else |rest| - 1);
    }
  }

  lemma CountBound<T>(t: seq<T>, key: T -> real, v: real)
    requires Descending(t, key)
    ensures CountAtLeast(t, key, v) <= |t|
  {
    if t != [] {
      CountSplits(t, key, v, 0);
    }
  }

  lemma SplitBeforeLast<T>(t: seq<T>, x: T, q: nat)
    requires q < |t|
    ensures t[..|t| - 1][..q] + [x] + t[..|t| - 1][q..] + [t[|t| - 1]] == t[..q] + [x] + t[q..]
  {
  }

  /** Insertion into a descending list puts x behind all keys that are at least its own. */
  lemma {:induction false} InsertAt<T>(t: seq<T>, x: T, key: T -> real)
    requires Descending(t, key)
    ensures CountAtLeast(t, key, key(x)) <= |t|
    ensures Insert(t, x, key) == t[..CountAtLeast(t, key, key(x))] + [x] + t[CountAtLeast(t, key, key(x))..]
  {
    CountBound(t, key, key(x));
    if t != [] {
      var n := |t| - 1;
      CountSplits(t, key, key(x), n);
      if key(t[n]) < key(x) {
        PrefixOrdered(t, key);
        InsertAt(t[..n], x, key);
        SplitBeforeLast(t, x, CountAtLeast(t, key, key(x)));
      }
    }
  }

  lemma {:induction false} PlaceInPrefix<T>(s: seq<T>, key: T -> real, i: nat)
    requires i < |s| - 1
    ensures Place(s, key, i)
            == Place(s[..|s| - 1], key, i) + if key(s[|s| - 1]) > key(s[i]) then 1 else 0
  {
    var n := |s| - 1;
    assert s[..n][..i] == s[..i] && s[..n][i + 1..] == s[i + 1..][..n - i - 1];
  }

  lemma PlaceOfLast<T>(s: seq<T>, key: T -> real)
    requires s != []
    ensures Place(s, key, |s| - 1) == CountAtLeast(s[..|s| - 1], key, key(s[|s| - 1]))
  {
  }

  /** The sort in closed form: every element stands at its place. */
  lemma {:induction false} SortedAtPlace<T>(s: seq<T>, key: T -> real, i: nat)
    requires i < |s|
    ensures Place(s, key, i) < |s| && SortDesc(s, key)[Place(s, key, i)] == s[i]
  {
    var n, last := |s| - 1, s[|s| - 1];
    var t := SortDesc(s[..n], key);
    SortDescending(s[..n], key);
    SortCounts(s[..n], key, key(last));
    InsertAt(t, last, key);
    if i == n {
      PlaceOfLast(s, key);
    } else {
      SortedAtPlace(s[..n], key, i);
      PlaceInPrefix(s, key, i);
      CountSplits(t, key, key(last), Place(s[..n], key, i));
    }
  }

  /** Every place of the sorted list is the place of some element. */
  lemma {:induction false} PlacesCover<T>(s: seq<T>, key: T -> real, p: nat) returns (i: nat)
    requires p < |s|
    ensures i < |s| && Place(s, key, i) == p
  {
    var n, last := |s| - 1, s[|s| - 1];
    var t := SortDesc(s[..n], key);
    SortDescending(s[..n], key);
    SortCounts(s[..n], key, key(last));
    CountBound(t, key, key(last));
    PlaceOfLast(s, key);
    var q := CountAtLeast(t, key, key(last));
    if p == q {
      i := n;
    } else {
      var p' := if p < q then p else p - 1;
      i := PlacesCover(s[..n], key, p');
      SortedAtPlace(s[..n], key, i);
      CountSplits(t, key, key(last), p');
      PlaceInPrefix(s, key, i);
    }
  }
}
