/**
 * The control test of the broken link: a two-bit histogram is split into
 * synchronised outcomes (equal bits, "00" and "11") and unsynchronised
 * ones (different bits, "01" and "10"), and the synchronised share is
 * checked against the band around one half.
 */
module BrokenLink {
  import opened Histogram
  import opened Options
  import opened TwoBit

  const BandLow: real := 0.45
  const BandHigh: real := 0.55

  /** `counts.get('00', 0) + counts.get('11', 0)` */
  function Sync(counts: Dict): nat {
    PairCount(counts, "00", "11")
  }

  /** `counts.get('01', 0) + counts.get('10', 0)` */
  function Chaos(counts: Dict): nat {
    PairCount(counts, "01", "10")
  }

  /** Both bits of a two-bit key agree. */
  predicate EqualBits(k: string) {
    |k| == 2 && k[0] == k[1]
  }

  lemma EqualBitsKeys()
    ensures forall k :: TwoBitKey(k) ==> (EqualBits(k) <==> k == "00" || k == "11")
    ensures forall k :: TwoBitKey(k) ==> (Not(EqualBits)(k) <==> k == "01" || k == "10")
  {
    forall k | TwoBitKey(k) ensures k == [k[0], k[1]] {
    }
  }

  /**
   * On a histogram of two bits, `sync` is the count of equal-bit outcomes,
   * `chaos` the count of the others, and together they are every shot.
   */
  lemma SyncChaosPartition(counts: Dict)
    requires Valid(counts) && TwoBitKeyed(counts)
    ensures Sync(counts) == SumWhere(counts.order, counts.vals, EqualBits)
    ensures Chaos(counts) == SumWhere(counts.order, counts.vals, Not(EqualBits))
    ensures Sync(counts) + Chaos(counts) == Total(counts)
  {
    EqualBitsKeys();
    PairIsSumWhere(counts, EqualBits, "00", "11");
    PairIsSumWhere(counts, Not(EqualBits), "01", "10");
    SumWherePartition(counts.order, counts.vals, EqualBits);
  }

  /** The printed shares and the outcome of the prediction check. */
  datatype LinkReport = LinkReport(syncShare: real, chaosShare: real, success: bool)

  /**
   * The analysis of one histogram; `None` when it is empty, where the first
   * division by the total raises. The success message is given exactly
   * when the synchronised share lies strictly inside (0.45, 0.55).
   */
  function Analyze(counts: Dict): (r: Option<LinkReport>)
    requires Valid(counts)
    ensures r.None? <==> Total(counts) == 0
    ensures r.Some? ==> r.value.syncShare == Ratio(Sync(counts), Total(counts))
    ensures r.Some? ==> r.value.chaosShare == Ratio(Chaos(counts), Total(counts))
    ensures r.Some? ==> 0.0 <= r.value.syncShare <= 1.0 && 0.0 <= r.value.chaosShare <= 1.0
    ensures r.Some? ==> (r.value.success <==> BandLow < r.value.syncShare < BandHigh)
  {
    var total := Total(counts);
    if total == 0 then None
    else
      PairAtMostTotal(counts, "00", "11");
      PairAtMostTotal(counts, "01", "10");
      var sync := Ratio(Sync(counts), total);
      Some(LinkReport(sync, Ratio(Chaos(counts), total), 0.45 < sync < 0.55))
  }

  /** On a two-bit histogram the two shares make up the whole. */
  lemma SharesSumToOne(counts: Dict)
    requires Valid(counts) && TwoBitKeyed(counts) && Total(counts) > 0
    ensures Analyze(counts).Some?
    ensures Analyze(counts).value.syncShare + Analyze(counts).value.chaosShare == 1.0
  {
    SyncChaosPartition(counts);
    var t := Total(counts) as real;
    DivAdd(Sync(counts) as real, Chaos(counts) as real, t);
    DivSelf(t);
  }
}
