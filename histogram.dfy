/**
 * Measurement histograms: the `counts` dictionaries that `get_counts()`
 * returns, mapping an outcome bitstring to the number of shots that produced
 * it. A Python dict remembers the order in which its keys were inserted, and
 * the scripts observe that order (ties in `max`, the stable sort, a merge cut
 * short by a KeyError), so a histogram is a map together with its key order.
 */
module Histogram {

  datatype Dict = Dict(order: seq<string>, vals: map<string, nat>)

  /** No key occurs twice: each key is absent from the keys before it. */
  predicate Distinct(ks: seq<string>) {
    ks == [] || (ks[|ks| - 1] !in ks[..|ks| - 1] && Distinct(ks[..|ks| - 1]))
  }

  /** A key of a duplicate-free list does not occur before its position. */
  lemma {:induction false} DistinctAt(ks: seq<string>, i: nat)
    requires Distinct(ks) && i < |ks|
    ensures ks[i] !in ks[..i] && Distinct(ks[..i])
  {
    var init := ks[..|ks| - 1];
    if i < |ks| - 1 {
      DistinctAt(init, i);
      assert init[..i] == ks[..i];
    } else {
      assert init == ks[..i];
    }
  }

  /** Pairwise different entries make a duplicate-free list. */
  lemma {:induction false} DistinctByPairs(ks: seq<string>)
    requires forall i, j :: 0 <= i < j < |ks| ==> ks[i] != ks[j]
    ensures Distinct(ks)
  {
    if ks != [] {
      var init := ks[..|ks| - 1];
      DistinctByPairs(init);
      assert forall i :: 0 <= i < |init| ==> init[i] == ks[i] != ks[|ks| - 1];
    }
  }

  /** What every Python dict satisfies: each key once, `order` lists exactly the keys. */
  ghost predicate Valid(d: Dict) {
    Distinct(d.order) && forall k :: k in d.vals <==> k in d.order
  }

  /** `m.get(k, 0)` on the bare map. */
  function Val(m: map<string, nat>, k: string): nat {
    if k in m then m[k] else 0
  }

  /** `d.get(k, 0)` */
  function Get(d: Dict, k: string): nat {
    Val(d.vals, k)
  }

  /** The sum of `m`'s counts over the key list `ks`; a key that `m` lacks adds 0. */
  function SumKeys(ks: seq<string>, m: map<string, nat>): nat {
    if ks == [] then 0 else SumKeys(ks[..|ks| - 1], m) + Val(m, ks[|ks| - 1])
  }

  /** `sum(d.values())` */
  function Total(d: Dict): nat {
    SumKeys(d.order, d.vals)
  }

  /** The sum of the counts of those keys in `ks` that satisfy `p`. */
  function SumWhere(ks: seq<string>, m: map<string, nat>, p: string -> bool): (n: nat)
    ensures n <= SumKeys(ks, m)
  {
    if ks == [] then 0
    else SumWhere(ks[..|ks| - 1], m, p) + (if p(ks[|ks| - 1]) then Val(m, ks[|ks| - 1]) else 0)
  }

  function Not(p: string -> bool): string -> bool {
    k => !p(k)
  }

  function KeyIn(ks: seq<string>): string -> bool {
    k => k in ks
  }

  /** The first `i + 1` items of a list are its first `i` items and item `i`. */
  lemma TakeSnoc(s: seq<string>, i: nat)
    requires i < |s|
    ensures s[..i + 1] == s[..i] + [s[i]] && s[..i + 1][..i] == s[..i]
  {
  }

  lemma SumKeysSnoc(ks: seq<string>, k: string, m: map<string, nat>)
    ensures SumKeys(ks + [k], m) == SumKeys(ks, m) + Val(m, k)
  {
    assert (ks + [k])[..|ks|] == ks;
  }

  /** Keys that all count 0 sum to 0. */
  lemma {:induction false} SumKeysZero(ks: seq<string>, m: map<string, nat>)
    requires forall i :: 0 <= i < |ks| ==> Val(m, ks[i]) == 0
    ensures SumKeys(ks, m) == 0
  {
    if ks != [] {
      SumKeysZero(ks[..|ks| - 1], m);
    }
  }

  /** The one-entry dict `{k: v}`. */
  lemma TotalSingleton(k: string, v: nat)
    ensures Valid(Dict([k], map[k := v])) && Total(Dict([k], map[k := v])) == v
  {
    var m := map[k := v];
    assert [k][..0] == [];
    assert SumKeys([k], m) == SumKeys([], m) + Val(m, k);
  }

  /**
   * What `d[k] = v` leaves behind in `r`: a dict in which an existing key
   * keeps its place and a new key goes last, only `k`'s count changes, and
   * the total moves by `v - d[k]`.
   */
  ghost predicate Stored(d: Dict, k: string, v: nat, r: Dict) {
    && Valid(r)
    && r.order == (if k in d.vals then d.order else d.order + [k])
    && (forall k' :: Get(r, k') == if k' == k then v else Get(d, k'))
    && Total(r) + Get(d, k) == Total(d) + v
  }

  /** `d[k] = v` */
  function Put(d: Dict, k: string, v: nat): (r: Dict)
    requires Valid(d)
    ensures Stored(d, k, v, r)
  {
    var m := d.vals[k := v];
    if k in d.vals then
      SumKeysUpdateOnce(d.order, d.vals, k, v);
      Dict(d.order, m)
    else
      SumKeysUpdateAbsent(d.order, d.vals, k, v);
      assert (d.order + [k])[..|d.order|] == d.order;
      Dict(d.order + [k], m)
  }

  /**
   * After adding the counts of the keys `done` of `counts` (no key twice)
   * to `acc`, each key holds its old count plus, if it was added, its count
   * in `counts`.
   */
  ghost predicate MergedCounts(acc: Dict, done: seq<string>, counts: Dict, r: Dict) {
    forall k :: Get(r, k) == Get(acc, k) + (if k in done then Get(counts, k) else 0)
  }

  /**
   * The state of a loop that adds the counts of the keys `done` of `counts`
   * to `acc`, one key at a time: each added key has grown by its count in
   * `counts`, and the total by the sum of those counts.
   */
  ghost predicate Accumulated(acc: Dict, done: seq<string>, counts: Dict, r: Dict) {
    && Valid(r)
    && MergedCounts(acc, done, counts, r)
    && Total(r) == Total(acc) + SumKeys(done, counts.vals)
  }

  /** Storing the sum for one more key of `counts` extends the accumulation by that key. */
  lemma AccumulateStep(acc: Dict, done: seq<string>, counts: Dict, r: Dict, k: string, r': Dict)
    requires Accumulated(acc, done, counts, r) && k !in done
    requires Stored(r, k, Get(r, k) + Get(counts, k), r')
    ensures Accumulated(acc, done + [k], counts, r')
  {
    StepTotal(acc, done, counts, r, k, r');
    StepCounts(acc, done, counts, r, k, r');
  }

  /** Adding the count of one more key of `counts` adds it to the running total. */
  lemma StepTotal(acc: Dict, done: seq<string>, counts: Dict, r: Dict, k: string, r': Dict)
    requires Total(r) == Total(acc) + SumKeys(done, counts.vals)
    requires Total(r') + Get(r, k) == Total(r) + (Get(r, k) + Get(counts, k))
    ensures Total(r') == Total(acc) + SumKeys(done + [k], counts.vals)
  {
    SumKeysSnoc(done, k, counts.vals);
  }

  /** Adding one more key of `counts` extends `MergedCounts` by that key. */
  lemma StepCounts(acc: Dict, done: seq<string>, counts: Dict, r: Dict, k: string, r': Dict)
    requires MergedCounts(acc, done, counts, r) && k !in done
    requires forall k' :: Get(r', k') == if k' == k then Get(r, k) + Get(counts, k) else Get(r, k')
    ensures MergedCounts(acc, done + [k], counts, r')
  {
    forall k' ensures Get(r', k') == Get(acc, k') + (if k' in done + [k] then Get(counts, k') else 0) {
      assert k' in done + [k] <==> k' in done || k' == k;
    }
  }

  lemma {:induction false} SumKeysUpdateAbsent(ks: seq<string>, m: map<string, nat>, k: string, v: nat)
    requires k !in ks
    ensures SumKeys(ks, m[k := v]) == SumKeys(ks, m)
  {
    if ks != [] {
      SumKeysUpdateAbsent(ks[..|ks| - 1], m, k, v);
    }
  }

  lemma {:induction false} SumKeysUpdateOnce(ks: seq<string>, m: map<string, nat>, k: string, v: nat)
    requires Distinct(ks) && k in ks && k in m
    ensures SumKeys(ks, m[k := v]) + m[k] == SumKeys(ks, m) + v
  {
    var init := ks[..|ks| - 1];
    if ks[|ks| - 1] == k {
      assert k !in init;
      SumKeysUpdateAbsent(init, m, k, v);
    } else {
      assert k in init;
      SumKeysUpdateOnce(init, m, k, v);
    }
  }

  lemma {:induction false} SumKeysConcat(a: seq<string>, b: seq<string>, m: map<string, nat>)
    ensures SumKeys(a + b, m) == SumKeys(a, m) + SumKeys(b, m)
  {
    if b == [] {
      assert a + b == a;
    } else {
      var b' := b[..|b| - 1];
      assert (a + b)[..|a + b| - 1] == a + b';
      SumKeysConcat(a, b', m);
    }
  }

  /** A prefix of a key list never sums to more than the whole list. */
  lemma SumKeysPrefix(ks: seq<string>, n: nat, m: map<string, nat>)
    requires n <= |ks|
    ensures SumKeys(ks[..n], m) <= SumKeys(ks, m)
  {
    assert ks == ks[..n] + ks[n..];
    SumKeysConcat(ks[..n], ks[n..], m);
  }

  /** The sum over a key list does not depend on the order of the list. */
  lemma {:induction false} SumKeysPermutation(a: seq<string>, b: seq<string>, m: map<string, nat>)
    requires multiset(a) == multiset(b)
    ensures SumKeys(a, m) == SumKeys(b, m)
  {
    if a == [] {
      assert |b| == |multiset(b)| == 0;
    } else {
      var a', x := a[..|a| - 1], a[|a| - 1];
      assert a == a' + [x];
      assert x in multiset(b);
      var i :| 0 <= i < |b| && b[i] == x;
      var rest := b[..i] + b[i + 1..];
      RemoveAtMultiset(b, i);
      assert multiset(a') == multiset(a) - multiset{x};
      SumKeysPermutation(a', rest, m);
      SumKeysRemoveAt(b, i, m);
    }
  }

  lemma RemoveAtMultiset(b: seq<string>, i: nat)
    requires i < |b|
    ensures multiset(b[..i] + b[i + 1..]) == multiset(b) - multiset{b[i]}
  {
    assert b == b[..i] + [b[i]] + b[i + 1..];
  }

  lemma SumKeysRemoveAt(b: seq<string>, i: nat, m: map<string, nat>)
    requires i < |b|
    ensures SumKeys(b, m) == SumKeys(b[..i] + b[i + 1..], m) + Val(m, b[i])
  {
    assert b == (b[..i] + [b[i]]) + b[i + 1..];
    SumKeysConcat(b[..i], b[i + 1..], m);
    SumKeysConcat(b[..i] + [b[i]], b[i + 1..], m);
    assert (b[..i] + [b[i]])[..i] == b[..i];
  }

  /** Every key goes to exactly one side of a predicate and its negation. */
  lemma {:induction false} SumWherePartition(ks: seq<string>, m: map<string, nat>, p: string -> bool)
    ensures SumWhere(ks, m, p) + SumWhere(ks, m, Not(p)) == SumKeys(ks, m)
  {
    if ks != [] {
      SumWherePartition(ks[..|ks| - 1], m, p);
    }
  }

  lemma {:induction false} SumWhereAll(ks: seq<string>, m: map<string, nat>, p: string -> bool)
    requires forall i :: 0 <= i < |ks| ==> p(ks[i])
    ensures SumWhere(ks, m, p) == SumKeys(ks, m)
  {
    if ks != [] {
      SumWhereAll(ks[..|ks| - 1], m, p);
    }
  }

  lemma {:induction false} SumWhereCongruent(ks: seq<string>, m: map<string, nat>, p: string -> bool, q: string -> bool)
    requires forall i :: 0 <= i < |ks| ==> p(ks[i]) == q(ks[i])
    ensures SumWhere(ks, m, p) == SumWhere(ks, m, q)
  {
    if ks != [] {
      SumWhereCongruent(ks[..|ks| - 1], m, p, q);
    }
  }

  lemma {:induction false} SumWhereAddKey(order: seq<string>, m: map<string, nat>, ks: seq<string>, x: string)
    requires Distinct(order) && x !in ks
    ensures SumWhere(order, m, KeyIn(ks + [x])) == SumWhere(order, m, KeyIn(ks)) + (if x in order then Val(m, x) else 0)
  {
    if order != [] {
      var init := order[..|order| - 1];
      SumWhereAddKey(init, m, ks, x);
      assert order == init + [order[|order| - 1]];
    }
  }

  /**
   * Looking up each key of a duplicate-free list and adding the results is
   * the same as summing the entries of the dict whose key is in the list.
   */
  lemma {:induction false} SumWhereKeyIn(order: seq<string>, m: map<string, nat>, ks: seq<string>)
    requires Distinct(order) && Distinct(ks)
    requires forall k :: k in m ==> k in order
    ensures SumWhere(order, m, KeyIn(ks)) == SumKeys(ks, m)
  {
    if ks == [] {
      SumWhereCongruent(order, m, KeyIn(ks), _ => false);
      SumWhereNone(order, m, _ => false);
    } else {
      var ks', x := ks[..|ks| - 1], ks[|ks| - 1];
      assert ks == ks' + [x];
      SumWhereKeyIn(order, m, ks');
      SumWhereAddKey(order, m, ks', x);
    }
  }

  lemma {:induction false} SumWhereNone(ks: seq<string>, m: map<string, nat>, p: string -> bool)
    requires forall i :: 0 <= i < |ks| ==> !p(ks[i])
    ensures SumWhere(ks, m, p) == 0
  {
    if ks != [] {
      SumWhereNone(ks[..|ks| - 1], m, p);
    }
  }

  lemma SumKeysPair(a: string, b: string, m: map<string, nat>)
    ensures SumKeys([a, b], m) == Val(m, a) + Val(m, b)
  {
    assert [a][..0] == [];
    assert SumKeys([a], m) == Val(m, a);
    assert [a, b][..1] == [a];
  }

  /** Two different keys never count more than the whole histogram. */
  lemma PairAtMostTotal(d: Dict, a: string, b: string)
    requires Valid(d) && a != b
    ensures Get(d, a) + Get(d, b) <= Total(d)
  {
    SumKeysPair(a, b, d.vals);
    SumWhereKeyIn(d.order, d.vals, [a, b]);
  }

  /** One key never counts more than the whole histogram. */
  lemma GetAtMostTotal(d: Dict, k: string)
    requires Valid(d)
    ensures Get(d, k) <= Total(d)
  {
    assert [k][..0] == [];
    assert SumKeys([k], d.vals) == Get(d, k);
    SumWhereKeyIn(d.order, d.vals, [k]);
  }

  /** `part / whole` on shot counts: a fraction in [0, 1] when the part is at most the whole. */
  function Ratio(part: nat, whole: nat): (q: real)
    requires whole > 0
    ensures q * whole as real == part as real
    ensures part <= whole ==> 0.0 <= q <= 1.0
    ensures part > 0 ==> q > 0.0
  {
    var q := part as real / whole as real;
    if part <= whole then
      DivAdd(part as real, (whole - part) as real, whole as real);
      DivSelf(whole as real);
      q
    else q
  }

  /** `[d[k] / total for k in ks]` */
  function Probabilities(d: Dict, ks: seq<string>, total: nat): (ps: seq<real>)
    requires total > 0
    ensures |ps| == |ks|
    ensures forall i :: 0 <= i < |ks| ==> ps[i] == Ratio(Get(d, ks[i]), total)
  {
    if ks == [] then []
    else Probabilities(d, ks[..|ks| - 1], total) + [Ratio(Get(d, ks[|ks| - 1]), total)]
  }

  lemma {:induction false} SumProbabilities(d: Dict, ks: seq<string>, total: nat)
    requires total > 0
    ensures SumReals(Probabilities(d, ks, total)) == SumKeys(ks, d.vals) as real / total as real
  {
    if ks != [] {
      var ks' := ks[..|ks| - 1];
      var ps := Probabilities(d, ks, total);
      assert ps[..|ps| - 1] == Probabilities(d, ks', total);
      SumProbabilities(d, ks', total);
      DivAdd(SumKeys(ks', d.vals) as real, Get(d, ks[|ks| - 1]) as real, total as real);
    }
  }

  lemma DivAdd(a: real, b: real, t: real)
    requires t > 0.0
    ensures (a + b) / t == a / t + b / t
  {
  }

  function SumReals(xs: seq<real>): real {
    if xs == [] then 0.0 else SumReals(xs[..|xs| - 1]) + xs[|xs| - 1]
  }

  /** One probability per key, summing to 1 over any ordering of the keys when `total` is the shot total. */
  lemma {:induction false} ProbabilitiesSumToOne(d: Dict, ks: seq<string>, total: nat)
    requires Valid(d) && total == Total(d) > 0
    requires multiset(ks) == multiset(d.order)
    ensures |Probabilities(d, ks, total)| == |ks|
    ensures SumReals(Probabilities(d, ks, total)) == 1.0
  {
    SumProbabilities(d, ks, total);
    SumKeysPermutation(ks, d.order, d.vals);
    DivSelf(total as real);
  }

  lemma DivSelf(t: real)
    requires t > 0.0
    ensures t / t == 1.0
  {
  }

}
