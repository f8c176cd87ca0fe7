/** The array operations the application leans on, as functions on sequences:
    `filter`, `reduce` to a sum, a stable `sort` with a numeric comparator
    followed by `slice(0, n)`, and the first-seen distinct elements of
    `Array.from(new Set(xs))`. */
module Seqs {

  // ---------------------------------------------------------------------------
  // filter
  // ---------------------------------------------------------------------------

  /** `xs.filter(p)`. */
  function Filter<T>(xs: seq<T>, p: T -> bool): (r: seq<T>)
    ensures |r| <= |xs|
    ensures forall i :: 0 <= i < |r| ==> p(r[i])
  {
    if xs == [] then [] else (if p(xs[0]) then [xs[0]] else []) + Filter(xs[1..], p)
  }

  /** An element survives the filter exactly when it was there and passes `p`. */
  lemma {:induction false} FilterMembers<T>(xs: seq<T>, p: T -> bool)
    ensures forall x :: x in Filter(xs, p) <==> x in xs && p(x)
  {
    if xs != [] {
      FilterMembers(xs[1..], p);
      assert xs == [xs[0]] + xs[1..];
    }
  }

  lemma FilterSingleton<T>(x: T, p: T -> bool)
    ensures Filter([x], p) == if p(x) then [x] else []
  {
    assert [x][1..] == [];
  }

  /** Filtering commutes with concatenation: the relative order of the survivors is kept. */
  lemma {:induction false} FilterConcat<T>(a: seq<T>, b: seq<T>, p: T -> bool)
    ensures Filter(a + b, p) == Filter(a, p) + Filter(b, p)
  {
    if a == [] {
      assert a + b == b;
    } else {
      assert (a + b)[1..] == a[1..] + b;
      FilterConcat(a[1..], b, p);
    }
  }

  /** Every passing element keeps all its occurrences; every failing one loses all of them. */
  lemma {:induction false} FilterMultiset<T>(xs: seq<T>, p: T -> bool)
    ensures forall x :: multiset(Filter(xs, p))[x] == if p(x) then multiset(xs)[x] else 0
  {
    if xs != [] {
      FilterMultiset(xs[1..], p);
      assert xs == [xs[0]] + xs[1..];
    }
  }

  /** A filter that every element passes returns the sequence unchanged. */
  lemma {:induction false} FilterKeepsAll<T>(xs: seq<T>, p: T -> bool)
    requires forall i :: 0 <= i < |xs| ==> p(xs[i])
    ensures Filter(xs, p) == xs
  {
    if xs != [] {
      FilterKeepsAll(xs[1..], p);
    }
  }

  /** `a` can be obtained from `b` by deleting elements (greedy matching). */
  predicate Subsequence<T(==)>(a: seq<T>, b: seq<T>)
    decreases |b|
  {
    a == [] || (b != [] && if a[0] == b[0] then Subsequence(a[1..], b[1..]) else Subsequence(a, b[1..]))
  }

  /** The result of a filter is a sub-list of its input, in the input's order. */
  lemma {:induction false} FilterIsSubsequence<T>(xs: seq<T>, p: T -> bool)
    ensures Subsequence(Filter(xs, p), xs)
  {
    if xs != [] {
      FilterIsSubsequence(xs[1..], p);
      var r := Filter(xs, p);
      if p(xs[0]) {
        assert r[1..] == Filter(xs[1..], p);
      } else {
        assert r == Filter(xs[1..], p);
        assert r != [] ==> p(r[0]) && r[0] != xs[0];
      }
    }
  }

  /** When every element satisfies exactly one of three predicates, the three filters
      together have as many elements as the input. */
  lemma {:induction false} FilterPartition3<T>(xs: seq<T>, p: T -> bool, q: T -> bool, r: T -> bool)
    requires forall i :: 0 <= i < |xs| ==>
      (p(xs[i]) && !q(xs[i]) && !r(xs[i])) || (!p(xs[i]) && q(xs[i]) && !r(xs[i])) ||
      (!p(xs[i]) && !q(xs[i]) && r(xs[i]))
    ensures |Filter(xs, p)| + |Filter(xs, q)| + |Filter(xs, r)| == |xs|
  {
    if xs != [] {
      FilterPartition3(xs[1..], p, q, r);
    }
  }

  // ---------------------------------------------------------------------------
  // reduce to a sum
  // ---------------------------------------------------------------------------

  /** `xs.reduce((sum, x) => sum + f(x), 0)`, a left fold. */
  function Sum<T>(xs: seq<T>, f: T -> real): real
  {
    if xs == [] then 0.0 else Sum(xs[..|xs| - 1], f) + f(xs[|xs| - 1])
  }

  lemma SumSingleton<T>(x: T, f: T -> real)
    ensures Sum([x], f) == f(x)
  {
    assert [x][..0] == [];
  }

  lemma {:induction false} SumConcat<T>(a: seq<T>, b: seq<T>, f: T -> real)
    ensures Sum(a + b, f) == Sum(a, f) + Sum(b, f)
  {
    if b == [] {
      assert a + b == a;
    } else {
      assert (a + b)[..|a + b| - 1] == a + b[..|b| - 1];
      SumConcat(a, b[..|b| - 1], f);
    }
  }

  /** A sum does not depend on the order of the summands. */
  lemma {:induction false} SumPermutation<T>(a: seq<T>, b: seq<T>, f: T -> real)
    requires multiset(a) == multiset(b)
    ensures Sum(a, f) == Sum(b, f)
    decreases |a|
  {
    if a != [] {
      var x := a[|a| - 1];
      var a' := a[..|a| - 1];
      assert a == a' + [x];
      assert x in multiset(b);
      var i :| 0 <= i < |b| && b[i] == x;
      var b' := b[..i] + b[i + 1..];
      assert b == b[..i] + [x] + b[i + 1..];
      assert multiset(b) == multiset(b[..i]) + multiset{x} + multiset(b[i + 1..]);
      assert multiset(a) == multiset(a') + multiset{x};
      assert multiset(b') == multiset(b[..i]) + multiset(b[i + 1..]);
      forall y
        ensures multiset(a')[y] == multiset(b')[y]
      {
        assert multiset(a)[y] == multiset(b)[y];
      }
      assert multiset(a') == multiset(b');
      SumPermutation(a', b', f);
      SumConcat(b[..i] + [x], b[i + 1..], f);
      SumConcat(b[..i], [x], f);
      SumConcat(b[..i], b[i + 1..], f);
      assert Sum([x], f) == f(x) by { assert [x][..0] == []; }
    }
  }

  /** `xs.reduce((n, x) => n + f(x), 0)` for counts. */
  function Count<T>(xs: seq<T>, f: T -> nat): nat
  {
    if xs == [] then 0 else Count(xs[..|xs| - 1], f) + f(xs[|xs| - 1])
  }

  lemma {:induction false} CountConcat<T>(a: seq<T>, b: seq<T>, f: T -> nat)
    ensures Count(a + b, f) == Count(a, f) + Count(b, f)
  {
    if b == [] {
      assert a + b == a;
    } else {
      assert (a + b)[..|a + b| - 1] == a + b[..|b| - 1];
      CountConcat(a, b[..|b| - 1], f);
    }
  }

  /** `xs.map(f)`. */
  function Map<T, U>(xs: seq<T>, f: T -> U): (r: seq<U>)
    ensures |r| == |xs|
    ensures forall i :: 0 <= i < |xs| ==> r[i] == f(xs[i])
  {
    seq(|xs|, i requires 0 <= i < |xs| => f(xs[i]))
  }

  lemma MapConcat<T, U>(a: seq<T>, b: seq<T>, f: T -> U)
    ensures Map(a + b, f) == Map(a, f) + Map(b, f)
  {
    assert forall i :: 0 <= i < |a + b| ==> Map(a + b, f)[i] == (Map(a, f) + Map(b, f))[i];
  }

  lemma MapAppend<T, U>(xs: seq<T>, x: T, f: T -> U)
    ensures Map(xs + [x], f) == Map(xs, f) + [f(x)]
  {
    MapConcat(xs, [x], f);
    assert Map([x], f) == [f(x)];
  }

  /** The images of a sequence are the images without position `i` plus the image at `i`. */
  lemma MapPick<T, U>(b: seq<T>, i: nat, f: T -> U)
    requires i < |b|
    ensures multiset(Map(b, f)) == multiset(Map(b[..i] + b[i + 1..], f)) + multiset{f(b[i])}
  {
    assert b == b[..i] + [b[i]] + b[i + 1..];
    MapConcat(b[..i] + [b[i]], b[i + 1..], f);
    MapConcat(b[..i], [b[i]], f);
    MapConcat(b[..i], b[i + 1..], f);
  }

  /** Taking the same element out of two arrangements of the same elements leaves two
      arrangements of the same elements. */
  lemma MultisetPick<T>(a: seq<T>, x: T, b: seq<T>, i: nat)
    requires i < |b| && b[i] == x && multiset(a + [x]) == multiset(b)
    ensures multiset(a) == multiset(b[..i] + b[i + 1..])
  {
    var c := b[..i] + b[i + 1..];
    assert b == b[..i] + [x] + b[i + 1..];
    assert multiset(b) == multiset(c) + multiset{x};
    assert multiset(a + [x]) == multiset(a) + multiset{x};
    forall y
      ensures multiset(a)[y] == multiset(c)[y]
    {
      assert (multiset(a) + multiset{x})[y] == (multiset(c) + multiset{x})[y];
    }
  }

  /** Mapping two arrangements of the same elements gives two arrangements of the
      same images. */
  lemma {:induction false} MapPermutation<T, U>(a: seq<T>, b: seq<T>, f: T -> U)
    requires multiset(a) == multiset(b)
    ensures multiset(Map(a, f)) == multiset(Map(b, f))
    decreases |a|
  {
    if a != [] {
      var x := a[|a| - 1];
      var a' := a[..|a| - 1];
      assert a == a' + [x];
      assert x in multiset(b);
      var i :| 0 <= i < |b| && b[i] == x;
      MultisetPick(a', x, b, i);
      MapPermutation(a', b[..i] + b[i + 1..], f);
      MapAppend(a', x, f);
      assert multiset(Map(a, f)) == multiset(Map(a', f)) + multiset{f(x)};
      MapPick(b, i, f);
    }
  }

  lemma ConcatAssoc<T>(a: seq<T>, b: seq<T>, c: seq<T>)
    ensures (a + b) + c == a + (b + c)
  {
  }

  lemma MapSnoc<T, U>(xs: seq<T>, k: nat, f: T -> U)
    requires k < |xs|
    ensures Map(xs[..k + 1], f) == Map(xs[..k], f) + [f(xs[k])]
  {
  }

  /** `xs.flatMap(f)`: the concatenation of `f(x)` over the elements, in order. */
  function FlatMap<T, U>(xs: seq<T>, f: T -> seq<U>): seq<U>
  {
    if xs == [] then [] else FlatMap(xs[..|xs| - 1], f) + f(xs[|xs| - 1])
  }

  /** Extending the input by one element extends the result by that element's image. */
  lemma FlatMapSnoc<T, U>(xs: seq<T>, i: nat, f: T -> seq<U>)
    requires i < |xs|
    ensures FlatMap(xs[..i + 1], f) == FlatMap(xs[..i], f) + f(xs[i])
  {
    assert xs[..i + 1][..i] == xs[..i];
  }

  lemma {:induction false} FlatMapConcat<T, U>(a: seq<T>, b: seq<T>, f: T -> seq<U>)
    ensures FlatMap(a + b, f) == FlatMap(a, f) + FlatMap(b, f)
  {
    if b == [] {
      assert a + b == a;
    } else {
      assert (a + b)[..|a + b| - 1] == a + b[..|b| - 1];
      FlatMapConcat(a, b[..|b| - 1], f);
    }
  }

  lemma FlatMapSingleton<T, U>(x: T, f: T -> seq<U>)
    ensures FlatMap([x], f) == f(x)
  {
    assert [x][..0] == [];
  }

  /** An element of a `flatMap` comes from the image of some input element. */
  lemma {:induction false} FlatMapMember<T, U>(xs: seq<T>, f: T -> seq<U>, y: U)
    ensures y in FlatMap(xs, f) <==> exists i :: 0 <= i < |xs| && y in f(xs[i])
  {
    if xs != [] {
      var n := |xs| - 1;
      var init := xs[..n];
      FlatMapMember(init, f, y);
      assert FlatMap(xs, f) == FlatMap(init, f) + f(xs[n]);
      if y in FlatMap(init, f) {
        var i :| 0 <= i < |init| && y in f(init[i]);
        assert init[i] == xs[i];
      }
      if exists i :: 0 <= i < |xs| && y in f(xs[i]) {
        var i :| 0 <= i < |xs| && y in f(xs[i]);
        if i < n {
          assert init[i] == xs[i];
        }
      }
    }
  }

  /** Mapping over a `flatMap` is the `flatMap` of the mapped images. */
  lemma {:induction false} MapFlatMap<T, U, V>(xs: seq<T>, f: T -> seq<U>, g: U -> V, h: T -> seq<V>)
    requires forall x :: Map(f(x), g) == h(x)
    ensures Map(FlatMap(xs, f), g) == FlatMap(xs, h)
  {
    if xs != [] {
      var n := |xs| - 1;
      MapFlatMap(xs[..n], f, g, h);
      MapConcat(FlatMap(xs[..n], f), f(xs[n]), g);
    }
  }

  /** A sequence made of one repeated value holds that value as often as it is long. */
  lemma {:induction false} AllEqualMultiplicity<T>(s: seq<T>, x: T)
    requires forall i :: 0 <= i < |s| ==> s[i] == x
    ensures multiset(s)[x] == |s|
  {
    if s != [] {
      AllEqualMultiplicity(s[1..], x);
      assert s == [s[0]] + s[1..];
    }
  }

  /** Replacing one element changes a count by the difference of the two images. */
  lemma CountUpdate<T>(xs: seq<T>, i: nat, x: T, f: T -> nat)
    requires i < |xs|
    ensures Count(xs[i := x], f) + f(xs[i]) == Count(xs, f) + f(x)
  {
    var a, b := xs[..i], xs[i + 1..];
    assert xs == a + [xs[i]] + b;
    assert xs[i := x] == a + [x] + b;
    CountConcat(a + [xs[i]], b, f);
    CountConcat(a, [xs[i]], f);
    CountConcat(a + [x], b, f);
    CountConcat(a, [x], f);
    assert [x][..0] == [] && [xs[i]][..0] == [];
  }

  /** The length of a `flatMap` is the sum of the lengths of the images. */
  lemma {:induction false} FlatMapLength<T, U>(xs: seq<T>, f: T -> seq<U>, g: T -> nat)
    requires forall x :: g(x) == |f(x)|
    ensures |FlatMap(xs, f)| == Count(xs, g)
  {
    if xs != [] {
      FlatMapLength(xs[..|xs| - 1], f, g);
    }
  }

  /** The concatenation of a sequence of sequences. */
  function Flatten<T>(ss: seq<seq<T>>): (r: seq<T>)
  {
    if ss == [] then [] else Flatten(ss[..|ss| - 1]) + ss[|ss| - 1]
  }

  lemma {:induction false} FlattenConcat<T>(a: seq<seq<T>>, b: seq<seq<T>>)
    ensures Flatten(a + b) == Flatten(a) + Flatten(b)
  {
    if b == [] {
      assert a + b == a;
    } else {
      var init, last := b[..|b| - 1], b[|b| - 1];
      var ab := a + b;
      assert ab[..|ab| - 1] == a + init && ab[|ab| - 1] == last;
      assert b[..|b| - 1] == init && b[|b| - 1] == last;
      FlattenConcat(a, init);
      assert Flatten(ab) == (Flatten(a) + Flatten(init)) + last;
      assert Flatten(b) == Flatten(init) + last;
    }
  }

  // ---------------------------------------------------------------------------
  // sort((a, b) => key(b) - key(a)).slice(0, n)
  // ---------------------------------------------------------------------------

  ghost predicate SortedDesc<T>(s: seq<T>, key: T -> real)
  {
    forall i, j :: 0 <= i < j < |s| ==> key(s[i]) >= key(s[j])
  }

  /** Inserts `x` in front of the first element whose key is not larger; an element
      that came earlier in the input stays ahead of later ones with the same key. */
  function Insert<T>(x: T, s: seq<T>, key: T -> real): seq<T>
  {
    if s == [] then [x]
    else if key(s[0]) > key(x) then [s[0]] + Insert(x, s[1..], key)
    else [x] + s
  }

  /** A stable sort by non-increasing key (`Array.prototype.sort` is stable). */
  function SortDesc<T>(xs: seq<T>, key: T -> real): seq<T>
  {
    if xs == [] then [] else Insert(xs[0], SortDesc(xs[1..], key), key)
  }

  lemma {:induction false} InsertPermutes<T>(x: T, s: seq<T>, key: T -> real)
    ensures multiset(Insert(x, s, key)) == multiset(s) + multiset{x}
  {
    if s != [] && key(s[0]) > key(x) {
      InsertPermutes(x, s[1..], key);
      assert s == [s[0]] + s[1..];
    }
  }

  lemma {:induction false} InsertSorted<T>(x: T, s: seq<T>, key: T -> real)
    requires SortedDesc(s, key)
    ensures SortedDesc(Insert(x, s, key), key)
  {
    if s != [] && key(s[0]) > key(x) {
      var tail := Insert(x, s[1..], key);
      InsertSorted(x, s[1..], key);
      InsertPermutes(x, s[1..], key);
      forall j | 0 <= j < |tail|
        ensures key(s[0]) >= key(tail[j])
      {
        assert tail[j] in multiset(tail);
        if tail[j] != x {
          assert tail[j] in multiset(s[1..]);
          var k :| 0 <= k < |s[1..]| && s[1..][k] == tail[j];
          assert s[k + 1] == tail[j];
        }
      }
    }
  }

  /** The sort orders by non-increasing key and only rearranges its input. */
  lemma {:induction false} SortDescSpec<T>(xs: seq<T>, key: T -> real)
    ensures SortedDesc(SortDesc(xs, key), key)
    ensures multiset(SortDesc(xs, key)) == multiset(xs)
    ensures |SortDesc(xs, key)| == |xs|
  {
    if xs != [] {
      SortDescSpec(xs[1..], key);
      InsertSorted(xs[0], SortDesc(xs[1..], key), key);
      InsertPermutes(xs[0], SortDesc(xs[1..], key), key);
      assert xs == [xs[0]] + xs[1..];
      assert |multiset(SortDesc(xs, key))| == |SortDesc(xs, key)|;
    }
  }

  /** Filtering the input of an insertion into a sorted sequence is inserting into the
      filtered sequence, or not inserting at all when the element is filtered out. */
  lemma {:induction false} FilterInsert<T>(x: T, s: seq<T>, key: T -> real, p: T -> bool)
    requires SortedDesc(s, key)
    ensures Filter(Insert(x, s, key), p) == if p(x) then Insert(x, Filter(s, p), key) else Filter(s, p)
  {
    if s == [] {
      FilterSingleton(x, p);
    } else if key(s[0]) > key(x) {
      var t := Insert(x, s[1..], key);
      FilterInsert(x, s[1..], key, p);
      assert ([s[0]] + t)[1..] == t;
      var fs := Filter(s, p);
      if p(s[0]) {
        assert fs[0] == s[0] && fs[1..] == Filter(s[1..], p);
      } else {
        assert fs == Filter(s[1..], p);
      }
    } else {
      assert ([x] + s)[1..] == s;
      FilterBounded(s, key, p, key(x));
    }
  }

  /** A bound on every key survives a filter. */
  lemma {:induction false} FilterBounded<T>(s: seq<T>, key: T -> real, p: T -> bool, k: real)
    requires forall i :: 0 <= i < |s| ==> key(s[i]) <= k
    ensures forall i :: 0 <= i < |Filter(s, p)| ==> key(Filter(s, p)[i]) <= k
  {
    if s != [] {
      FilterBounded(s[1..], key, p, k);
    }
  }

  /** Filtering a sorted sequence gives the sorted filtered sequence: with a stable sort,
      removing elements before or after sorting yields the same order. */
  lemma {:induction false} FilterSortDesc<T>(xs: seq<T>, key: T -> real, p: T -> bool)
    ensures Filter(SortDesc(xs, key), p) == SortDesc(Filter(xs, p), key)
  {
    if xs != [] {
      FilterSortDesc(xs[1..], key, p);
      SortDescSpec(xs[1..], key);
      FilterInsert(xs[0], SortDesc(xs[1..], key), key, p);
      var fx := Filter(xs, p);
      if p(xs[0]) {
        assert fx[0] == xs[0] && fx[1..] == Filter(xs[1..], p);
      } else {
        assert fx == Filter(xs[1..], p);
      }
    }
  }

  /** `s.slice(0, n)`. */
  function Take<T>(s: seq<T>, n: nat): (r: seq<T>)
  {
    if |s| <= n then s else s[..n]
  }

  /** `[...xs].sort((a, b) => key(b) - key(a)).slice(0, n)`. */
  function TopN<T>(xs: seq<T>, key: T -> real, n: nat): seq<T>
  {
    Take(SortDesc(xs, key), n)
  }

  /** In a sequence sorted by non-increasing key, no element after position `k` beats
      an element before it. */
  lemma SortedPrefixDominates<T>(s: seq<T>, k: nat, key: T -> real)
    requires SortedDesc(s, key) && k <= |s|
    ensures forall y, z :: y in s[k..] && z in s[..k] ==> key(y) <= key(z)
  {
    forall y, z | y in s[k..] && z in s[..k]
      ensures key(y) <= key(z)
    {
      var iy :| 0 <= iy < |s[k..]| && s[k..][iy] == y;
      var iz :| 0 <= iz < k && s[..k][iz] == z;
      assert s[k + iy] == y && s[iz] == z;
    }
  }

  /** A prefix and the rest of a sequence split its elements between them. */
  lemma PrefixAndRest<T>(s: seq<T>, k: nat)
    requires k <= |s|
    ensures multiset(s[..k]) <= multiset(s)
    ensures multiset(s) - multiset(s[..k]) == multiset(s[k..])
  {
    assert s == s[..k] + s[k..];
    assert multiset(s) == multiset(s[..k]) + multiset(s[k..]);
  }

  /** The top-`n` list has at most `n` entries, is ordered by non-increasing key,
      draws only on the input, and no left-out entry beats a selected one. */
  lemma TopNSpec<T>(xs: seq<T>, key: T -> real, n: nat)
    ensures |TopN(xs, key, n)| == if |xs| <= n then |xs| else n
    ensures SortedDesc(TopN(xs, key, n), key)
    ensures multiset(TopN(xs, key, n)) <= multiset(xs)
    ensures forall y, z :: y in multiset(xs) - multiset(TopN(xs, key, n)) && z in TopN(xs, key, n) ==>
      key(y) <= key(z)
  {
    var s := SortDesc(xs, key);
    SortDescSpec(xs, key);
    var k := if |s| <= n then |s| else n;
    assert TopN(xs, key, n) == s[..k];
    PrefixAndRest(s, k);
    SortedPrefixDominates(s, k, key);
  }

  // ---------------------------------------------------------------------------
  // Array.from(new Set(xs))
  // ---------------------------------------------------------------------------

  /** The distinct elements of `xs` in first-seen order. */
  function Distinct(xs: seq<string>): (r: seq<string>)
    ensures |r| <= |xs|
    ensures forall x :: x in r <==> x in xs
    ensures forall i, j :: 0 <= i < j < |r| ==> r[i] != r[j]
  {
    if xs == [] then []
    else
      var d := Distinct(xs[..|xs| - 1]);
      assert xs == xs[..|xs| - 1] + [xs[|xs| - 1]];
      if xs[|xs| - 1] in d then d else d + [xs[|xs| - 1]]
  }

  /** The position of the first occurrence of `x` in `xs`, or `|xs|` when there is none. */
  function FirstIndex(xs: seq<string>, x: string): (k: nat)
    ensures k <= |xs|
    ensures k < |xs| ==> xs[k] == x
    ensures forall i :: 0 <= i < k ==> xs[i] != x
  {
    if xs == [] then 0
    else if xs[0] == x then 0
    else 1 + FirstIndex(xs[1..], x)
  }

  /** Appending an element does not move the first occurrence of an element already
      present. */
  lemma FirstIndexAppend(p: seq<string>, z: string, y: string)
    requires y in p
    ensures FirstIndex(p + [z], y) == FirstIndex(p, y)
  {
    var i :| 0 <= i < |p| && p[i] == y;
    var k := FirstIndex(p, y);
    assert k <= i;
    assert (p + [z])[k] == y;
  }

  /** The distinct elements come in the order of their first occurrences. */
  lemma {:induction false} DistinctOrder(xs: seq<string>)
    ensures forall i, j :: 0 <= i < j < |Distinct(xs)| ==> FirstIndex(xs, Distinct(xs)[i]) < FirstIndex(xs, Distinct(xs)[j])
  {
    if xs != [] {
      var p, x := xs[..|xs| - 1], xs[|xs| - 1];
      assert xs == p + [x];
      var d := Distinct(p);
      DistinctOrder(p);
      forall i, j | 0 <= i < j < |Distinct(xs)|
        ensures FirstIndex(xs, Distinct(xs)[i]) < FirstIndex(xs, Distinct(xs)[j])
      {
        var u, v := Distinct(xs)[i], Distinct(xs)[j];
        assert u == d[i] && u in p;
        FirstIndexAppend(p, x, u);
        if j < |d| {
          assert v == d[j] && v in p;
          FirstIndexAppend(p, x, v);
        } else {
          assert v == x && x !in p;
          assert FirstIndex(p, u) < |p|;
          assert FirstIndex(xs, x) == |p|;
        }
      }
    }
  }
}
