/**
 * src/final_48k_verdict.py, `run_grand_final`: merge the histograms of a
 * fixed list of jobs into a table of the eight 3-bit outcomes, then report
 * the share of "000" and its lead over the chaos floor 1/8.
 */
module FinalVerdict {
  import opened Histogram
  import opened Options
  import KeyOrder

  /** `format(i, '03b')` for `0 <= i < 8`. */
  function Bin3(i: nat): (s: string)
    requires i < 8
    ensures |s| == 3 && forall j :: 0 <= j < 3 ==> s[j] == '0' || s[j] == '1'
    ensures (if s[0] == '1' then 4 else 0) + (if s[1] == '1' then 2 else 0) + (if s[2] == '1' then 1 else 0) == i
  {
    [Bit(i / 4), Bit(i / 2 % 2), Bit(i % 2)]
  }

  function Bit(b: nat): char {
    if b == 0 then '0' else '1'
  }

  /** The keys of `final_counts`, in the order the comprehension inserts them. */
  const States: seq<string> := ["000", "001", "010", "011", "100", "101", "110", "111"]

  /** The comprehension runs over `range(8)`, so `States[i]` is `i` in three binary digits. */
  lemma StatesAreBinary()
    ensures |States| == 8
    ensures forall i :: 0 <= i < 8 ==> States[i] == Bin3(i)
  {
    assert Bin3(0) == "000" && Bin3(1) == "001" && Bin3(2) == "010" && Bin3(3) == "011";
    assert Bin3(4) == "100" && Bin3(5) == "101" && Bin3(6) == "110" && Bin3(7) == "111";
  }

  lemma StatesDistinct()
    ensures Distinct(States)
  {
    forall i, j | 0 <= i < j < |States| ensures States[i] != States[j] {
      StatesAreBinary();
      assert Bin3(i)[0] != Bin3(j)[0] || Bin3(i)[1] != Bin3(j)[1] || Bin3(i)[2] != Bin3(j)[2];
    }
    DistinctByPairs(States);
  }

  /** `{format(i, '03b'): 0 for i in range(8)}` */
  function InitialCounts(): (d: Dict)
    ensures Valid(d) && d.order == States && Total(d) == 0
    ensures forall k :: Get(d, k) == 0
    ensures forall k :: k in d.vals <==> k in States
  {
    StatesDistinct();
    var d := Dict(States, map k | k in States :: 0);
    assert forall k :: Get(d, k) == 0;
    SumKeysZero(States, d.vals);
    d
  }

  lemma StatesAscending()
    ensures KeyOrder.Ascending(States)
  {
    forall i, j | 0 <= i < j < |States| ensures KeyOrder.StrLe(States[i], States[j]) {
      StatesAreBinary();
      var a, b := Bin3(i), Bin3(j);
      assert a == [Bit(i / 4)] + a[1..] && b == [Bit(j / 4)] + b[1..];
    }
  }

  /**
   * The position of the first key of `ks` that is not among `known`
   * (`|ks|` when there is none): `final_counts[state] += count` raises
   * KeyError there.
   */
  function FirstUnknown(ks: seq<string>, known: seq<string>): (n: nat)
    ensures n <= |ks|
    ensures forall j :: 0 <= j < n ==> ks[j] in known
    ensures n < |ks| ==> ks[n] !in known
  {
    if ks == [] || ks[0] !in known then 0
    else 1 + FirstUnknown(ks[1..], known)
  }

  /** The state of `final_counts` once the keys `done` of `counts` have been added. */
  ghost predicate AddedUpTo(final: Dict, done: seq<string>, counts: Dict, r: Dict) {
    Accumulated(final, done, counts, r) && r.order == final.order
  }

  lemma AddStep(final: Dict, done: seq<string>, counts: Dict, r: Dict, k: string, r': Dict)
    requires AddedUpTo(final, done, counts, r) && k !in done && k in r.vals
    requires Stored(r, k, Get(r, k) + Get(counts, k), r')
    ensures AddedUpTo(final, done + [k], counts, r')
  {
    AccumulateStep(final, done, counts, r, k, r');
  }

  /**
   * The inner loop `for state, count in counts.items(): final_counts[state]
   * += count`. The table never gains a key; `ok` is false when a key
   * outside it raised KeyError, and then exactly the keys before that one
   * have been added.
   */
  method AddCounts(final: Dict, counts: Dict) returns (r: Dict, ok: bool)
    requires Valid(final) && Valid(counts)
    ensures Valid(r) && r.order == final.order
    ensures ok <==> FirstUnknown(counts.order, final.order) == |counts.order|
    ensures MergedCounts(final, counts.order[..FirstUnknown(counts.order, final.order)], counts, r)
    ensures Total(r) == Total(final) + SumKeys(counts.order[..FirstUnknown(counts.order, final.order)], counts.vals)
  {
    r := final;
    ok := true;
    var i := 0;
    assert counts.order[..0] == [];
    while i < |counts.order|
      invariant 0 <= i <= |counts.order|
      invariant i <= FirstUnknown(counts.order, final.order)
      invariant AddedUpTo(final, counts.order[..i], counts, r)
    {
      var k := counts.order[i];
      if k !in r.vals {
        ok := false;
        break;
      }
      var r' := Put(r, k, Get(r, k) + Get(counts, k));
      TakeSnoc(counts.order, i);
      DistinctAt(counts.order, i);
      AddStep(final, counts.order[..i], counts, r, k, r');
      r := r';
      i := i + 1;
    }
    assert i == FirstUnknown(counts.order, final.order);
    assert ok ==> counts.order[..i] == counts.order;
  }

  /** The keys of a job's histogram that reach `final_counts`: those before the first key outside the table. */
  function Admitted(c: Dict): seq<string> {
    c.order[..FirstUnknown(c.order, States)]
  }

  /** `grand_total_shots`: the shot totals of every job whose result could be read. */
  function FetchedShots(fs: seq<Option<Dict>>): nat {
    if fs == [] then 0
    else FetchedShots(fs[..|fs| - 1]) + (if fs[|fs| - 1].Some? then Total(fs[|fs| - 1].value) else 0)
  }

  /** The count of `k` that the jobs add to `final_counts`. */
  function AdmittedCount(fs: seq<Option<Dict>>, k: string): nat {
    if fs == [] then 0
    else
      var f := fs[|fs| - 1];
      AdmittedCount(fs[..|fs| - 1], k) + (if f.Some? && k in Admitted(f.value) then Get(f.value, k) else 0)
  }

  /** The shots that the jobs add to `final_counts`. */
  function AdmittedShots(fs: seq<Option<Dict>>): nat {
    if fs == [] then 0
    else
      var f := fs[|fs| - 1];
      AdmittedShots(fs[..|fs| - 1]) + (if f.Some? then SumKeys(Admitted(f.value), f.value.vals) else 0)
  }

  ghost predicate AllValid(fs: seq<Option<Dict>>) {
    forall i :: 0 <= i < |fs| && fs[i].Some? ==> Valid(fs[i].value)
  }

  /** `final_counts` and `grand_total_shots` after the jobs `fs`. */
  ghost predicate Tallied(fs: seq<Option<Dict>>, final: Dict, grandTotal: nat) {
    && Valid(final) && final.order == States
    && grandTotal == FetchedShots(fs)
    && (forall k :: Get(final, k) == AdmittedCount(fs, k))
    && Total(final) == AdmittedShots(fs)
  }

  lemma TallyStep(fs: seq<Option<Dict>>, f: Option<Dict>, final: Dict, grandTotal: nat, r: Dict)
    requires Tallied(fs, final, grandTotal)
    requires f.Some? ==>
               && Valid(r) && r.order == final.order
               && MergedCounts(final, Admitted(f.value), f.value, r)
               && Total(r) == Total(final) + SumKeys(Admitted(f.value), f.value.vals)
    requires f.None? ==> r == final
    ensures Tallied(fs + [f], r, grandTotal + (if f.Some? then Total(f.value) else 0))
  {
    var fs' := fs + [f];
    assert fs'[..|fs'| - 1] == fs;
  }

  /**
   * The job loop of `run_grand_final`. A job whose result cannot be read
   * (`None`) is skipped; otherwise its shot total joins `grand_total_shots`
   * first and its counts are then added, up to a key outside the table.
   */
  method RunGrandFinal(fs: seq<Option<Dict>>) returns (final: Dict, grandTotal: nat)
    requires AllValid(fs)
    ensures Valid(final) && final.order == States
    ensures grandTotal == FetchedShots(fs)
    ensures forall k :: Get(final, k) == AdmittedCount(fs, k)
    ensures Total(final) == AdmittedShots(fs)
  {
    final := InitialCounts();
    grandTotal := 0;
    assert fs[..0] == [];
    for i := 0 to |fs|
      invariant Tallied(fs[..i], final, grandTotal)
    {
      assert fs[..i + 1] == fs[..i] + [fs[i]];
      if fs[i].Some? {
        var counts := fs[i].value;
        var shots := Total(counts);
        var r, ok := AddCounts(final, counts);
        TallyStep(fs[..i], fs[i], final, grandTotal, r);
        grandTotal := grandTotal + shots;
        final := r;
      } else {
        TallyStep(fs[..i], fs[i], final, grandTotal, final);
      }
    }
    assert fs[..|fs|] == fs;
  }

  /**
   * `final_counts` never holds more shots than `grand_total_shots`, and
   * holds all of them when no job produced a key outside the table.
   */
  lemma {:induction false} AdmittedAtMostFetched(fs: seq<Option<Dict>>)
    ensures AdmittedShots(fs) <= FetchedShots(fs)
    ensures (forall i :: 0 <= i < |fs| && fs[i].Some? ==> forall k :: k in fs[i].value.order ==> k in States)
            ==> AdmittedShots(fs) == FetchedShots(fs)
  {
    if fs != [] {
      var init, f := fs[..|fs| - 1], fs[|fs| - 1];
      AdmittedAtMostFetched(init);
      if f.Some? {
        var c := f.value;
        SumKeysPrefix(c.order, FirstUnknown(c.order, States), c.vals);
        if forall k :: k in c.order ==> k in States {
          assert FirstUnknown(c.order, States) == |c.order|;
          assert Admitted(c) == c.order;
        }
      }
      assert forall i :: 0 <= i < |init| ==> init[i] == fs[i];
    }
  }

  /** `chaos_floor`: one of eight outcomes at random. */
  const ChaosFloor: real := 0.125

  /** The reported figures: the share of "000", its lead over the floor in percent, and the plotted bars. */
  datatype Report = Report(p0: real, lead: real, states: seq<string>, probs: seq<real>)

  /**
   * The arithmetic after the job loop. `None` is the ZeroDivisionError that
   * `final_counts["000"] / grand_total_shots` raises when
   * `grand_total_shots` is 0 (no job was read, or every job read returned
   * no shots): nothing guards that division.
   */
  function GrandVerdict(final: Dict, grandTotal: nat): (r: Option<Report>)
    ensures r.None? <==> grandTotal == 0
    ensures r.Some? ==> r.value.p0 == Ratio(Get(final, "000"), grandTotal)
    ensures r.Some? && Valid(final) && Total(final) <= grandTotal ==> 0.0 <= r.value.p0 <= 1.0
    ensures r.Some? ==> (r.value.lead > 0.0 <==> r.value.p0 > ChaosFloor)
    ensures r.Some? ==> multiset(r.value.states) == multiset(final.order) && KeyOrder.Ascending(r.value.states)
    ensures r.Some? ==> |r.value.probs| == |r.value.states|
    ensures r.Some? ==> forall i :: 0 <= i < |r.value.states| ==>
                          r.value.probs[i] == Ratio(Get(final, r.value.states[i]), grandTotal)
  {
    if grandTotal == 0 then None
    else
      var p0 := Ratio(Get(final, "000"), grandTotal);
      assert Valid(final) && Total(final) <= grandTotal ==> Get(final, "000") <= grandTotal by {
        if Valid(final) && Total(final) <= grandTotal {
          GetAtMostTotal(final, "000");
        }
      }
      var lead := (p0 / ChaosFloor - 1.0) * 100.0;
      LeadSign(p0);
      var states := KeyOrder.Sort(final.order);
      var probs := Probabilities(final, states, grandTotal);
      Some(Report(p0, lead, states, probs))
  }

  lemma LeadSign(p0: real)
    ensures (p0 / ChaosFloor - 1.0) * 100.0 > 0.0 <==> p0 > ChaosFloor
  {
  }

  /**
   * When every shot reached the table, the bars are the eight states in
   * order and their heights add up to 1.
   */
  lemma GrandProbabilitiesSumToOne(final: Dict, grandTotal: nat)
    requires Valid(final) && final.order == States && Total(final) == grandTotal > 0
    ensures GrandVerdict(final, grandTotal).Some?
    ensures GrandVerdict(final, grandTotal).value.states == States
    ensures SumReals(GrandVerdict(final, grandTotal).value.probs) == 1.0
  {
    StatesAscending();
    KeyOrder.SortAscending(States);
    ProbabilitiesSumToOne(final, States, grandTotal);
  }
}
