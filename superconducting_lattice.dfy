/**
 * The read-out of the superconducting lattice run: the histogram's items
 * sorted by count, largest first, and the tunnelling rate, the shots whose
 * left bit (Q4, the classical bit 1) is 1, over the fixed 4000 shots
 * requested.
 */
module SuperconductingLattice {
  import opened Histogram
  import opened TwoBit

  const RequestedShots: nat := 4000

  type Item = (string, nat)

  /** `[(k, d[k]) for k in ks]` */
  function ItemsOf(ks: seq<string>, d: Dict): (items: seq<Item>)
    ensures |items| == |ks|
    ensures forall i :: 0 <= i < |ks| ==> items[i] == (ks[i], Get(d, ks[i]))
  {
    if ks == [] then [] else ItemsOf(ks[..|ks| - 1], d) + [(ks[|ks| - 1], Get(d, ks[|ks| - 1]))]
  }

  /** `list(counts.items())`, in the dict's key order. */
  function Items(d: Dict): seq<Item> {
    ItemsOf(d.order, d)
  }

  /**
   * Places `x` in front of the first item whose count is not larger; the
   * items it passes all count more than `x`.
   */
  function InsertDesc(x: Item, s: seq<Item>): seq<Item> {
    if s == [] then [x]
    else if x.1 >= s[0].1 then [x] + s
    else [s[0]] + InsertDesc(x, s[1..])
  }

  /** `sorted(items, key=lambda item: item[1], reverse=True)` */
  function SortDesc(s: seq<Item>): seq<Item> {
    if s == [] then []
    else InsertDesc(s[0], SortDesc(s[1..]))
  }

  /** Insertion adds exactly the one item. */
  lemma {:induction false} InsertDescPermutes(x: Item, s: seq<Item>)
    ensures multiset(InsertDesc(x, s)) == multiset(s) + multiset{x}
  {
    if s != [] && x.1 < s[0].1 {
      InsertDescPermutes(x, s[1..]);
      assert s == [s[0]] + s[1..];
    }
  }

  /** Counts never increase along the list. */
  predicate Descending(s: seq<Item>) {
    forall i :: 0 < i < |s| ==> s[i - 1].1 >= s[i].1
  }

  /** The items of `s` with count `v`, in their order in `s`. */
  function WithCount(s: seq<Item>, v: nat): seq<Item> {
    if s == [] then []
    else (if s[0].1 == v then [s[0]] else []) + WithCount(s[1..], v)
  }

  lemma {:induction false} InsertDescending(x: Item, s: seq<Item>)
    requires Descending(s)
    ensures Descending(InsertDesc(x, s))
    ensures InsertDesc(x, s)[0] == x || (s != [] && InsertDesc(x, s)[0] == s[0])
  {
    if s != [] && x.1 < s[0].1 {
      var t := InsertDesc(x, s[1..]);
      InsertDescending(x, s[1..]);
      var r := [s[0]] + t;
      forall i | 0 < i < |r| ensures r[i - 1].1 >= r[i].1 {
        if i == 1 {
          assert t[0] == x || t[0] == s[1];
        } else {
          assert r[i - 1] == t[i - 2] && r[i] == t[i - 1];
        }
      }
    }
  }

  /** Inserting `x` before the first item it is not smaller than puts it first among the items of its count. */
  lemma WithCountCons(y: Item, s: seq<Item>, v: nat)
    ensures WithCount([y] + s, v) == (if y.1 == v then [y] else []) + WithCount(s, v)
  {
    assert ([y] + s)[1..] == s;
  }

  lemma {:induction false} InsertKeepsOrderWithin(x: Item, s: seq<Item>, v: nat)
    ensures WithCount(InsertDesc(x, s), v) == (if x.1 == v then [x] else []) + WithCount(s, v)
  {
    if s == [] {
      WithCountCons(x, [], v);
      assert [x] + [] == [x];
    } else if x.1 >= s[0].1 {
      WithCountCons(x, s, v);
    } else {
      var t := InsertDesc(x, s[1..]);
      var w := WithCount(s[1..], v);
      assert InsertDesc(x, s) == [s[0]] + t;
      assert [s[0]] + s[1..] == s;
      InsertKeepsOrderWithin(x, s[1..], v);
      WithCountCons(s[0], t, v);
      WithCountCons(s[0], s[1..], v);
      SwapFront(if s[0].1 == v then [s[0]] else [], if x.1 == v then [x] else [], w);
    }
  }

  /** Two fronts of which at most one is non-empty may be swapped. */
  lemma SwapFront(a: seq<Item>, b: seq<Item>, w: seq<Item>)
    requires a == [] || b == []
    ensures a + (b + w) == b + (a + w)
  {
    if a == [] {
      assert a + (b + w) == b + w == b + (a + w);
    } else {
      assert a + (b + w) == a + w == b + (a + w);
    }
  }

  /**
   * The sorted list is a permutation of the items with counts descending,
   * and it is stable: the items of any one count keep their original
   * relative order.
   */
  lemma {:induction false} SortDescCorrect(s: seq<Item>)
    ensures multiset(SortDesc(s)) == multiset(s)
    ensures Descending(SortDesc(s))
    ensures forall v :: WithCount(SortDesc(s), v) == WithCount(s, v)
  {
    if s != [] {
      SortDescCorrect(s[1..]);
      InsertDescPermutes(s[0], SortDesc(s[1..]));
      assert s == [s[0]] + s[1..];
      InsertDescending(s[0], SortDesc(s[1..]));
      forall v ensures WithCount(SortDesc(s), v) == WithCount(s, v) {
        InsertKeepsOrderWithin(s[0], SortDesc(s[1..]), v);
      }
    }
  }

  /** `sorted(counts.items(), key=lambda item: item[1], reverse=True)` */
  function SortedCounts(d: Dict): seq<Item> {
    SortDesc(Items(d))
  }

  /**
   * The sorted read-out lists every key once with its count, counts never
   * increase along it, and keys of equal count keep the dict's order.
   */
  lemma SortedCountsCorrect(d: Dict)
    ensures multiset(SortedCounts(d)) == multiset(Items(d))
    ensures forall x: Item :: x in SortedCounts(d) <==> x.0 in d.order && x.1 == Get(d, x.0)
    ensures Descending(SortedCounts(d))
    ensures forall v :: WithCount(SortedCounts(d), v) == WithCount(Items(d), v)
  {
    SortDescCorrect(Items(d));
    var items := Items(d);
    forall x: Item ensures x in SortedCounts(d) <==> x in items {
      assert x in SortedCounts(d) <==> x in multiset(SortedCounts(d));
    }
    forall x: Item | x.0 in d.order && x.1 == Get(d, x.0) ensures x in items {
      var i :| 0 <= i < |d.order| && d.order[i] == x.0;
      assert items[i] == x;
    }
  }

  /** `counts.get('10', 0) + counts.get('11', 0)` */
  function Tunnel(counts: Dict): nat {
    PairCount(counts, "10", "11")
  }

  /** The left bit of a two-bit key is 1. */
  predicate LeftBitOne(k: string) {
    |k| >= 1 && k[0] == '1'
  }

  /** On a two-bit histogram, the tunnelling count is the count of every outcome with the left bit 1. */
  lemma TunnelIsLeftBitOne(counts: Dict)
    requires Valid(counts) && TwoBitKeyed(counts)
    ensures Tunnel(counts) == SumWhere(counts.order, counts.vals, LeftBitOne)
  {
    forall k | TwoBitKey(k) ensures LeftBitOne(k) <==> k == "10" || k == "11" {
      assert k == [k[0], k[1]];
    }
    PairIsSumWhere(counts, LeftBitOne, "10", "11");
  }

  /**
   * `tunnel_success / 4000`: the divisor is the number of shots requested,
   * not the number measured, so the rate is the tunnelling share only when
   * exactly 4000 shots were returned.
   */
  function TunnelRate(counts: Dict): (rate: real)
    requires Valid(counts)
    ensures rate * RequestedShots as real == Tunnel(counts) as real
    ensures 0.0 <= rate
    ensures Total(counts) == RequestedShots ==> rate == Ratio(Tunnel(counts), Total(counts)) && rate <= 1.0
  {
    PairAtMostTotal(counts, "10", "11");
    Ratio(Tunnel(counts), RequestedShots)
  }
}
