/** JavaScript objects used as dictionaries (`Record<string, V>`): an
    association list in insertion order. `acc[k] = v` overwrites the value of an
    existing key in place and appends a new key at the end, and
    `Object.keys`/`Object.values`/`Object.entries` enumerate in that order.

    `Accumulate` is the pattern every accumulator of the application follows:
    for each event `e`, in order, `acc[key(e)]` is initialised from `start(e)`
    when missing and then replaced by `step(acc[key(e)], e)`. */
module Dictionaries {
  import opened Wrappers
  import opened Seqs

  datatype Entry<V> = Entry(key: string, value: V)

  /** `Object.keys(d)`. */
  function Keys<V>(d: seq<Entry<V>>): seq<string>
  {
    Map(d, (e: Entry<V>) => e.key)
  }

  /** `Object.values(d)`. */
  function Values<V>(d: seq<Entry<V>>): seq<V>
  {
    Map(d, (e: Entry<V>) => e.value)
  }

  /** Position of key `k`, or -1. */
  function IndexOf<V>(d: seq<Entry<V>>, k: string): (i: int)
    ensures -1 <= i < |d|
    ensures i >= 0 ==> d[i].key == k
    ensures forall j :: 0 <= j < |d| && (i < 0 || j < i) ==> d[j].key != k
  {
    if d == [] then -1
    else if d[0].key == k then 0
    else
      var i := IndexOf(d[1..], k);
      if i < 0 then -1 else i + 1
  }

  /** `d[k]`, `undefined` when absent. */
  function Get<V>(d: seq<Entry<V>>, k: string): Option<V>
  {
    var i := IndexOf(d, k);
    if i < 0 then None else Some(d[i].value)
  }

  /** `d[k] || default` for values that are never falsy once stored. */
  function GetOr<V>(d: seq<Entry<V>>, k: string, default: V): V
  {
    Get(d, k).GetOr(default)
  }

  /** `d[k] = v`. */
  function Put<V>(d: seq<Entry<V>>, k: string, v: V): seq<Entry<V>>
  {
    var i := IndexOf(d, k);
    if i < 0 then d + [Entry(k, v)] else d[i := Entry(k, v)]
  }

  /** After `d[k] = v`, reading `k` gives `v` and every other key reads as before. */
  lemma GetPut<V>(d: seq<Entry<V>>, k: string, v: V, k': string)
    ensures Get(Put(d, k, v), k') == if k' == k then Some(v) else Get(d, k')
  {
    var i := IndexOf(d, k);
    var d' := Put(d, k, v);
    var i' := IndexOf(d', k');
    if k' != k {
      var j := IndexOf(d, k');
      if j >= 0 {
        assert d'[j] == d[j];
        assert i' == j;
      } else {
        assert i' < 0;
      }
    } else {
      assert d'[if i < 0 then |d| else i].key == k;
    }
  }

  /** With pairwise distinct keys, every entry is what its own key reads. */
  lemma GetDistinct<V>(d: seq<Entry<V>>, i: nat)
    requires i < |d|
    requires forall a, b :: 0 <= a < b < |d| ==> d[a].key != d[b].key
    ensures Get(d, d[i].key) == Some(d[i].value)
  {
  }

  /** Creating a missing key with a placeholder and then overwriting it is the same as
      writing the key once. */
  lemma PutOverPlaceholder<V>(d: seq<Entry<V>>, k: string, v0: V, v: V)
    requires Get(d, k).None?
    ensures Put(d + [Entry(k, v0)], k, v) == Put(d, k, v)
  {
    var d' := d + [Entry(k, v0)];
    assert d'[|d|].key == k;
  }

  /** `d[k] = v` keeps the key order, appending `k` when it is new. */
  lemma KeysPut<V>(d: seq<Entry<V>>, k: string, v: V)
    ensures Keys(Put(d, k, v)) == if k in Keys(d) then Keys(d) else Keys(d) + [k]
  {
    var i := IndexOf(d, k);
    if i < 0 {
      assert k !in Keys(d);
    } else {
      assert Keys(d)[i] == k;
    }
  }

  // ---------------------------------------------------------------------------
  // Accumulators
  // ---------------------------------------------------------------------------

  /** The accumulator after the events `es`, starting from `acc`. */
  function Accumulate<E, V>(acc: seq<Entry<V>>, es: seq<E>, key: E -> string, start: E -> V, step: (V, E) -> V): seq<Entry<V>>
  {
    if es == [] then acc
    else
      var prev := Accumulate(acc, es[..|es| - 1], key, start, step);
      var e := es[|es| - 1];
      Put(prev, key(e), step(GetOr(prev, key(e), start(e)), e))
  }

  /** One more event is one more `acc[key(e)]` update. */
  lemma AccumulateSnoc<E, V>(acc: seq<Entry<V>>, es: seq<E>, e: E, key: E -> string, start: E -> V, step: (V, E) -> V)
    ensures var prev := Accumulate(acc, es, key, start, step);
      Accumulate(acc, es + [e], key, start, step) == Put(prev, key(e), step(GetOr(prev, key(e), start(e)), e))
  {
    assert (es + [e])[..|es|] == es;
  }

  /** Accumulating two runs of events in turn is accumulating their concatenation. */
  lemma {:induction false} AccumulateConcat<E, V>(acc: seq<Entry<V>>, a: seq<E>, b: seq<E>, key: E -> string, start: E -> V, step: (V, E) -> V)
    ensures Accumulate(acc, a + b, key, start, step) == Accumulate(Accumulate(acc, a, key, start, step), b, key, start, step)
  {
    if b == [] {
      assert a + b == a;
    } else {
      var b' := b[..|b| - 1];
      assert a + b == (a + b') + [b[|b| - 1]];
      AccumulateConcat(acc, a, b', key, start, step);
      AccumulateSnoc(acc, a + b', b[|b| - 1], key, start, step);
      assert b == b' + [b[|b| - 1]];
      AccumulateSnoc(Accumulate(acc, a, key, start, step), b', b[|b| - 1], key, start, step);
    }
  }

  /** The left fold of `step` over `es` from `v`. */
  function Fold<E, V>(v: V, es: seq<E>, step: (V, E) -> V): V
  {
    if es == [] then v else step(Fold(v, es[..|es| - 1], step), es[|es| - 1])
  }

  /** The events whose key is `k`. */
  function HasKey<E>(key: E -> string, k: string): E -> bool
  {
    e => key(e) == k
  }

  lemma FilterSnoc<T>(xs: seq<T>, x: T, p: T -> bool)
    ensures Filter(xs + [x], p) == Filter(xs, p) + if p(x) then [x] else []
  {
    FilterConcat(xs, [x], p);
    assert [x][1..] == [];
  }

  /** The entry of key `k` exists exactly when some event has key `k`; its value is
      `start` of the first such event followed by `step` over all of them, in order. */
  lemma {:induction false} AccumulateGet<E, V>(es: seq<E>, key: E -> string, start: E -> V, step: (V, E) -> V, k: string)
    ensures var f := Filter(es, HasKey(key, k));
      Get(Accumulate([], es, key, start, step), k) == if f == [] then None else Some(Fold(start(f[0]), f, step))
  {
    if es != [] {
      var es', e := es[..|es| - 1], es[|es| - 1];
      assert es == es' + [e];
      var prev := Accumulate([], es', key, start, step);
      var f' := Filter(es', HasKey(key, k));
      AccumulateGet(es', key, start, step, k);
      FilterSnoc(es', e, HasKey(key, k));
      var v := step(GetOr(prev, key(e), start(e)), e);
      GetPut(prev, key(e), v, k);
      assert Accumulate([], es, key, start, step) == Put(prev, key(e), v);
      if key(e) == k {
        assert HasKey(key, k)(e);
        var f := f' + [e];
        assert Filter(es, HasKey(key, k)) == f;
        assert f[..|f| - 1] == f' && f[|f| - 1] == e;
        if f' == [] {
          assert GetOr(prev, k, start(e)) == start(e);
          assert Fold(start(e), f, step) == step(start(e), e) by {
            assert f[..0] == [];
          }
        } else {
          assert f[0] == f'[0];
          assert GetOr(prev, k, start(e)) == Fold(start(f[0]), f', step);
          assert Fold(start(f[0]), f, step) == step(Fold(start(f[0]), f', step), e);
        }
      } else {
        assert !HasKey(key, k)(e);
        assert Filter(es, HasKey(key, k)) == f';
      }
    }
  }

  /** The keys are the distinct event keys in order of first occurrence. */
  lemma {:induction false} AccumulateKeys<E, V>(es: seq<E>, key: E -> string, start: E -> V, step: (V, E) -> V)
    ensures Keys(Accumulate([], es, key, start, step)) == Distinct(Map(es, key))
  {
    if es != [] {
      var es', e := es[..|es| - 1], es[|es| - 1];
      var prev := Accumulate([], es', key, start, step);
      AccumulateKeys(es', key, start, step);
      assert Map(es, key)[..|es| - 1] == Map(es', key);
      KeysPut(prev, key(e), step(GetOr(prev, key(e), start(e)), e));
    }
  }

  /** An accumulator's keys are pairwise distinct. */
  lemma AccumulateDistinctKeys<E, V>(es: seq<E>, key: E -> string, start: E -> V, step: (V, E) -> V)
    ensures var d := Accumulate([], es, key, start, step);
      forall i, j :: 0 <= i < j < |d| ==> d[i].key != d[j].key
  {
    AccumulateKeys(es, key, start, step);
    var d := Accumulate([], es, key, start, step);
    forall i, j | 0 <= i < j < |d|
      ensures d[i].key != d[j].key
    {
      assert Keys(d)[i] == d[i].key && Keys(d)[j] == d[j].key;
    }
  }

  /** Every entry of an accumulator is what its own key reads. */
  lemma AccumulateEntry<E, V>(es: seq<E>, key: E -> string, start: E -> V, step: (V, E) -> V, i: nat)
    requires i < |Accumulate([], es, key, start, step)|
    ensures var d := Accumulate([], es, key, start, step);
      Get(d, d[i].key) == Some(d[i].value)
  {
    AccumulateDistinctKeys(es, key, start, step);
    GetDistinct(Accumulate([], es, key, start, step), i);
  }
}
