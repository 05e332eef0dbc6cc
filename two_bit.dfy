/**
 * Histograms of two measured bits, whose keys are the four strings "00",
 * "01", "10" and "11" (left character: the classical bit of higher index).
 */
module TwoBit {
  import opened Histogram

  predicate IsBit(c: char) {
    c == '0' || c == '1'
  }

  predicate TwoBitKey(k: string) {
    |k| == 2 && IsBit(k[0]) && IsBit(k[1])
  }

  /** Every key of the histogram is a two-bit string. */
  ghost predicate TwoBitKeyed(d: Dict) {
    forall k :: k in d.vals ==> TwoBitKey(k)
  }

  /** The sum of the counts of two different keys. */
  function PairCount(d: Dict, a: string, b: string): nat {
    Get(d, a) + Get(d, b)
  }

  /**
   * On a two-bit histogram, the counts of the keys that satisfy `p` add up
   * to the counts of `a` and `b`, when these are exactly the two-bit keys
   * satisfying `p`.
   */
  lemma {:induction false} PairIsSumWhere(d: Dict, p: string -> bool, a: string, b: string)
    requires Valid(d) && TwoBitKeyed(d) && a != b
    requires forall k :: TwoBitKey(k) ==> (p(k) <==> k == a || k == b)
    ensures SumWhere(d.order, d.vals, p) == PairCount(d, a, b)
  {
    forall i | 0 <= i < |d.order| ensures p(d.order[i]) == KeyIn([a, b])(d.order[i]) {
      assert d.order[i] in d.vals;
    }
    SumWhereCongruent(d.order, d.vals, p, KeyIn([a, b]));
    assert Distinct([a, b]) by {
      assert [a, b][..1] == [a] && [a][..0] == [];
    }
    SumWhereKeyIn(d.order, d.vals, [a, b]);
    SumKeysPair(a, b, d.vals);
  }
}
