/** Lists of records identified by a string key (`id`): the `findIndex`-then-
    overwrite-or-push upsert of the storage layer, removal of a key with
    `filter`, and the `map` that rewrites the entries with a given key. */
module KeyedLists {
  import opened Seqs

  /** Every key occurs at most once. */
  ghost predicate UniqueKeys<T>(xs: seq<T>, key: T -> string)
  {
    forall i, j :: 0 <= i < j < |xs| ==> key(xs[i]) != key(xs[j])
  }

  /** `xs.findIndex((x) => key(x) === k)`: the first position with key `k`, or -1. */
  function FindIndex<T>(xs: seq<T>, key: T -> string, k: string): (i: int)
    ensures -1 <= i < |xs|
    ensures i >= 0 ==> key(xs[i]) == k
    ensures forall j :: 0 <= j < |xs| && (i < 0 || j < i) ==> key(xs[j]) != k
  {
    if xs == [] then -1
    else if key(xs[0]) == k then 0
    else
      var i := FindIndex(xs[1..], key, k);
      if i < 0 then -1 else i + 1
  }

  /** The upsert of the storage layer: the first entry with `x`'s key is overwritten
      in place, or `x` is pushed when there is none. */
  function Upsert<T>(xs: seq<T>, key: T -> string, x: T): seq<T>
  {
    var i := FindIndex(xs, key, key(x));
    if i >= 0 then xs[i := x] else xs + [x]
  }

  /** When `x`'s key is present, the upsert keeps the length and replaces exactly the
      first entry with that key; every other entry stays where it was. */
  lemma UpsertExisting<T>(xs: seq<T>, key: T -> string, x: T, i: nat)
    requires i < |xs| && key(xs[i]) == key(x)
    requires forall j :: 0 <= j < i ==> key(xs[j]) != key(x)
    ensures |Upsert(xs, key, x)| == |xs|
    ensures Upsert(xs, key, x)[i] == x
    ensures forall j :: 0 <= j < |xs| && j != i ==> Upsert(xs, key, x)[j] == xs[j]
  {
    var f := FindIndex(xs, key, key(x));
    assert f == i;
  }

  /** When `x`'s key is absent, the upsert appends `x` and adds one entry. */
  lemma UpsertNew<T>(xs: seq<T>, key: T -> string, x: T)
    requires forall j :: 0 <= j < |xs| ==> key(xs[j]) != key(x)
    ensures Upsert(xs, key, x) == xs + [x]
    ensures |Upsert(xs, key, x)| == |xs| + 1
  {
    var f := FindIndex(xs, key, key(x));
    assert f < 0;
  }

  /** Saving the same record twice gives the same list as saving it once. */
  lemma UpsertIdempotent<T>(xs: seq<T>, key: T -> string, x: T)
    ensures Upsert(Upsert(xs, key, x), key, x) == Upsert(xs, key, x)
  {
    var ys := Upsert(xs, key, x);
    var i := FindIndex(xs, key, key(x));
    if i >= 0 {
      UpsertExisting(ys, key, x, i);
    } else {
      UpsertExisting(ys, key, x, |xs|);
    }
  }

  /** Upserting into a list with unique keys keeps the keys unique. */
  lemma UpsertKeepsUniqueKeys<T>(xs: seq<T>, key: T -> string, x: T)
    requires UniqueKeys(xs, key)
    ensures UniqueKeys(Upsert(xs, key, x), key)
  {
  }

  /** `(x) => key(x) !== k`. */
  function KeyIsNot<T>(key: T -> string, k: string): T -> bool
  {
    x => key(x) != k
  }

  /** `xs.filter((x) => key(x) !== k)`. */
  function RemoveKey<T>(xs: seq<T>, key: T -> string, k: string): seq<T>
  {
    Filter(xs, KeyIsNot(key, k))
  }

  /** Removing a key drops every entry with that key, keeps every other entry and
      their relative order, and changes nothing when the key is absent. */
  lemma RemoveKeySpec<T>(xs: seq<T>, key: T -> string, k: string)
    ensures forall x :: x in RemoveKey(xs, key, k) <==> x in xs && key(x) != k
    ensures Subsequence(RemoveKey(xs, key, k), xs)
    ensures (forall j :: 0 <= j < |xs| ==> key(xs[j]) != k) ==> RemoveKey(xs, key, k) == xs
  {
    FilterMembers(xs, KeyIsNot(key, k));
    FilterIsSubsequence(xs, KeyIsNot(key, k));
    if forall j :: 0 <= j < |xs| ==> key(xs[j]) != k {
      FilterKeepsAll(xs, KeyIsNot(key, k));
    }
  }

  /** `xs.map((x) => key(x) === k ? f(x) : x)`. */
  function UpdateKey<T>(xs: seq<T>, key: T -> string, k: string, f: T -> T): (r: seq<T>)
    ensures |r| == |xs|
    ensures forall i :: 0 <= i < |xs| && key(xs[i]) != k ==> r[i] == xs[i]
    ensures forall i :: 0 <= i < |xs| && key(xs[i]) == k ==> r[i] == f(xs[i])
  {
    seq(|xs|, i requires 0 <= i < |xs| => if key(xs[i]) == k then f(xs[i]) else xs[i])
  }

  // ---------------------------------------------------------------------------
  // Upserting a whole list, one entry after the other
  // ---------------------------------------------------------------------------

  /** `ys.forEach((y) => upsert(y))` applied to the stored list `xs`. */
  function UpsertAll<T>(xs: seq<T>, key: T -> string, ys: seq<T>): seq<T>
  {
    if ys == [] then xs else Upsert(UpsertAll(xs, key, ys[..|ys| - 1]), key, ys[|ys| - 1])
  }

  /** With unique keys, upserting an entry that is already stored changes nothing. */
  lemma UpsertPresent<T>(xs: seq<T>, key: T -> string, j: nat)
    requires UniqueKeys(xs, key) && j < |xs|
    ensures Upsert(xs, key, xs[j]) == xs
  {
    UpsertExisting(xs, key, xs[j], j);
  }

  /** With unique stored keys, upserting entries that are all stored already leaves the
      stored list exactly as it was. */
  lemma {:induction false} UpsertAllPresent<T>(xs: seq<T>, key: T -> string, ys: seq<T>)
    requires UniqueKeys(xs, key)
    requires forall i :: 0 <= i < |ys| ==> ys[i] in xs
    ensures UpsertAll(xs, key, ys) == xs
  {
    if ys != [] {
      UpsertAllPresent(xs, key, ys[..|ys| - 1]);
      var j :| 0 <= j < |xs| && xs[j] == ys[|ys| - 1];
      UpsertPresent(xs, key, j);
    }
  }

  /** Overwriting the first stored entry after a replaced prefix extends the prefix. */
  lemma ReplaceAtBoundary<T>(ys: seq<T>, xs: seq<T>, m: nat)
    requires m < |xs| == |ys|
    ensures (ys[..m] + xs[m..])[m := ys[m]] == ys[..m + 1] + xs[m + 1..]
  {
    var u := (ys[..m] + xs[m..])[m := ys[m]];
    var v := ys[..m + 1] + xs[m + 1..];
    forall j | 0 <= j < |xs|
      ensures u[j] == v[j]
    {
    }
  }

  /** With unique stored keys, upserting a list that has the same keys at the same
      positions replaces the stored entries one by one: after `n` entries the first `n`
      stored entries are the new ones. */
  lemma {:induction false} UpsertAllSameKeys<T>(xs: seq<T>, key: T -> string, ys: seq<T>, n: nat)
    requires UniqueKeys(xs, key) && |ys| == |xs| && n <= |xs|
    requires forall i :: 0 <= i < |xs| ==> key(ys[i]) == key(xs[i])
    ensures UpsertAll(xs, key, ys[..n]) == ys[..n] + xs[n..]
  {
    if n > 0 {
      var m := n - 1;
      var zs := ys[..m] + xs[m..];
      UpsertAllSameKeys(xs, key, ys, m);
      assert ys[..n][..m] == ys[..m];
      forall j | 0 <= j < m
        ensures key(zs[j]) != key(ys[m])
      {
        assert zs[j] == ys[j];
      }
      assert zs[m] == xs[m];
      assert FindIndex(zs, key, key(ys[m])) == m;
      ReplaceAtBoundary(ys, xs, m);
    }
  }
}
