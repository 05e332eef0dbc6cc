/**
 * The analysis loop of the entropy-flow experiment: for each time slice,
 * split the two-qubit histogram by the ancilla bit (the left character of
 * the key once it is padded to width 2), derive the two branch
 * probabilities, the entropy case and the survival rate, and append one
 * entry per slice to the two result lists. A slice with no shots makes the
 * division raise, which ends the whole analysis.
 */
module EntropyGenesis {
  import opened Histogram
  import opened Options

  /** `'0' * n` */
  function Zeros(n: nat): (z: string)
    ensures |z| == n && forall i :: 0 <= i < n ==> z[i] == '0'
  {
    if n == 0 then [] else Zeros(n - 1) + "0"
  }

  predicate IsSign(c: char) {
    c == '+' || c == '-'
  }

  /**
   * Python's `s.zfill(w)`: a string shorter than `w` gets zeros on the
   * left, placed after a leading sign if there is one; a longer string is
   * returned unchanged.
   */
  function ZFill(s: string, w: nat): (r: string)
    ensures |s| >= w ==> r == s
    ensures |s| < w ==> |r| == w
    ensures |s| < w && (s == [] || !IsSign(s[0])) ==>
              r[w - |s|..] == s && forall i :: 0 <= i < w - |s| ==> r[i] == '0'
    ensures |s| < w && s != [] && IsSign(s[0]) ==>
              r[0] == s[0] && r[w - |s| + 1..] == s[1..] && forall i :: 1 <= i <= w - |s| ==> r[i] == '0'
  {
    if |s| >= w then s
    else if s != [] && IsSign(s[0]) then [s[0]] + Zeros(w - |s|) + s[1..]
    else Zeros(w - |s|) + s
  }

  /** `k.zfill(2)[0] == '0'`: the shot left the ancilla Q1 in state 0. */
  predicate AncillaZero(k: string) {
    ZFill(k, 2)[0] == '0'
  }

  /**
   * Only the first character of a key of two or more characters is looked
   * at; a one-character key (or the empty key) is padded and so counts as
   * ancilla 0, unless it is a lone sign character.
   */
  lemma AncillaZeroCases(k: string)
    ensures AncillaZero(k) <==>
              if |k| >= 2 then k[0] == '0' else k == [] || !IsSign(k[0])
  {
  }

  /** The shots with ancilla 0 and with ancilla 1. */
  function Ancilla0(counts: Dict): nat {
    SumWhere(counts.order, counts.vals, AncillaZero)
  }

  function Ancilla1(counts: Dict): nat {
    SumWhere(counts.order, counts.vals, Not(AncillaZero))
  }

  /** Every shot is counted on exactly one side of the ancilla split. */
  lemma AncillaSplitIsTotal(counts: Dict)
    ensures Ancilla0(counts) + Ancilla1(counts) == Total(counts)
  {
    SumWherePartition(counts.order, counts.vals, AncillaZero);
  }

  /** The counter loop over `counts.items()`. */
  method Marginalize(counts: Dict) returns (n0: nat, n1: nat)
    requires Valid(counts)
    ensures n0 == Ancilla0(counts) && n1 == Ancilla1(counts)
    ensures n0 + n1 == Total(counts)
  {
    var ks := counts.order;
    n0, n1 := 0, 0;
    for i := 0 to |ks|
      invariant n0 == SumWhere(ks[..i], counts.vals, AncillaZero)
      invariant n1 == SumWhere(ks[..i], counts.vals, Not(AncillaZero))
    {
      var k := ks[i];
      var v := counts.vals[k];
      TakeSnoc(ks, i);
      if ZFill(k, 2)[0] == '0' {
        n0 := n0 + v;
      } else {
        n1 := n1 + v;
      }
    }
    assert ks[..|ks|] == ks;
    AncillaSplitIsTotal(counts);
  }

  /**
   * The entropy of the ancilla: exactly 0 when one branch is empty,
   * otherwise the Shannon entropy `-p0 log2 p0 - p1 log2 p1` of the two
   * branch probabilities (kept symbolically, the logarithm is not modelled).
   */
  datatype Entropy = ZeroEntropy | Shannon(p0: real, p1: real)

  datatype Slice = Slice(entropy: Entropy, survival: real)

  /** What one time slice contributes; `None` when its total is 0 and the division raises. */
  function SliceOf(counts: Dict): (r: Option<Slice>)
    ensures r.None? <==> Total(counts) == 0
  {
    var total := Total(counts);
    if total == 0 then None
    else
      var n0, n1 := Ancilla0(counts), Ancilla1(counts);
      var p0, p1 := Ratio(n0, total), Ratio(n1, total);
      var h := if n0 == 0 || n1 == 0 then ZeroEntropy else Shannon(p0, p1);
      Some(Slice(h, p0))
  }

  /**
   * The survival rate is the ancilla-0 share, a value in [0, 1]; the
   * entropy is zero exactly when one branch is empty, and otherwise it is
   * taken of two probabilities strictly between 0 and 1 that sum to 1, the
   * first of them the survival rate.
   */
  lemma SliceMeaning(counts: Dict)
    requires Total(counts) > 0
    ensures var r := SliceOf(counts);
      && r.Some?
      && r.value.survival == Ratio(Ancilla0(counts), Total(counts))
      && 0.0 <= r.value.survival <= 1.0
      && (r.value.entropy.ZeroEntropy? <==> Ancilla0(counts) == 0 || Ancilla1(counts) == 0)
      && (r.value.entropy.Shannon? ==>
            && r.value.entropy.p0 == r.value.survival
            && 0.0 < r.value.entropy.p0 < 1.0 && 0.0 < r.value.entropy.p1 < 1.0
            && r.value.entropy.p0 + r.value.entropy.p1 == 1.0)
  {
    AncillaSplitIsTotal(counts);
    BranchesSumToOne(Ancilla0(counts), Ancilla1(counts), Total(counts));
  }

  /** `n0 / total + n1 / total == 1` when the two counts make up the total. */
  lemma BranchesSumToOne(n0: nat, n1: nat, total: nat)
    requires total > 0 && n0 + n1 == total
    ensures Ratio(n0, total) + Ratio(n1, total) == 1.0
    ensures n0 > 0 ==> Ratio(n0, total) > 0.0
    ensures n1 > 0 ==> Ratio(n0, total) < 1.0
  {
    DivAdd(n0 as real, n1 as real, total as real);
    DivSelf(total as real);
  }

  /** The body of the time-slice loop. */
  method AnalyzeSlice(counts: Dict) returns (r: Option<Slice>)
    requires Valid(counts)
    ensures r == SliceOf(counts)
  {
    var total := Total(counts);
    var n0, n1 := Marginalize(counts);
    if total == 0 {
      return None;
    }
    var p0, p1 := Ratio(n0, total), Ratio(n1, total);
    var h := if p0 == 0.0 || p1 == 0.0 then ZeroEntropy else Shannon(p0, p1);
    r := Some(Slice(h, p0));
  }

  /**
   * The loop over the time points, one histogram per point in the order of
   * `TIME_POINTS`. `complete` is false when a slice without shots ended the
   * analysis; the lists then hold the slices before it.
   */
  method AnalyzeRun(results: seq<Dict>) returns (entropies: seq<Entropy>, survivals: seq<real>, complete: bool)
    requires forall i :: 0 <= i < |results| ==> Valid(results[i])
    ensures |entropies| == |survivals| <= |results|
    ensures complete <==> |entropies| == |results|
    ensures !complete ==> Total(results[|entropies|]) == 0
    ensures forall i :: 0 <= i < |entropies| ==>
              SliceOf(results[i]) == Some(Slice(entropies[i], survivals[i]))
  {
    entropies, survivals := [], [];
    var i := 0;
    while i < |results|
      invariant i <= |results| && |entropies| == |survivals| == i
      invariant forall j :: 0 <= j < i ==> SliceOf(results[j]) == Some(Slice(entropies[j], survivals[j]))
    {
      var s := AnalyzeSlice(results[i]);
      if s.None? {
        return entropies, survivals, false;
      }
      entropies := entropies + [s.value.entropy];
      survivals := survivals + [s.value.survival];
      i := i + 1;
    }
    complete := true;
  }
}
