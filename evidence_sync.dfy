/**
 * The evidence ledger: for each recorded task, fetch its histogram and, if
 * that succeeds, build one row naming that job, its most frequent outcome,
 * that outcome's share of the shots and the significance label.
 */
module EvidenceSync {
  import opened Histogram
  import opened Options
  import opened Text

  datatype Task = Task(name: string, id: string, desc: string)

  const ResurrectionMarker: string := "Resurrection"

  /** The six recorded jobs; the four resurrection names read "Exp_6_Resurrection_1" to "_4". */
  const Tasks: seq<Task> := [
    Task("Exp_4_Holographic_Pump", "d5ehflv67pic73820p6g", "God Fingerprint"),
    Task("Exp_5_Holographic_Refiner", "d5eho9v67pic738215r0", "The Alchemy"),
    Task("Exp_6_" + ResurrectionMarker + "_1", "d5ejeu7sm22c73brdh50", "300 Layers 48k [1/4]"),
    Task("Exp_6_" + ResurrectionMarker + "_2", "d5ejeunsm22c73brdh6g", "300 Layers 48k [2/4]"),
    Task("Exp_6_" + ResurrectionMarker + "_3", "d5ejetqgim5s73aeld40", "300 Layers 48k [3/4]"),
    Task("Exp_6_" + ResurrectionMarker + "_4", "d5ejetfsm22c73brdh2g", "300 Layers 48k [4/4]")
  ]

  const ResurrectionSigma: string := "132.76"
  const NoSigma: string := "N/A"

  /** `max(counts, key=counts.get)`: the position of the first key with the largest count. */
  function ArgMax(ks: seq<string>, m: map<string, nat>): (i: nat)
    requires ks != []
    ensures i < |ks|
    ensures forall j :: 0 <= j < |ks| ==> Val(m, ks[j]) <= Val(m, ks[i])
    ensures forall j :: 0 <= j < i ==> Val(m, ks[j]) < Val(m, ks[i])
  {
    if |ks| == 1 then 0
    else
      var b := ArgMax(ks[..|ks| - 1], m);
      if Val(m, ks[|ks| - 1]) > Val(m, ks[b]) then |ks| - 1 else b
  }

  /** A histogram with some shots gives its most frequent key a positive count. */
  lemma {:induction false} MaxIsPositive(d: Dict, i: nat)
    requires Valid(d) && i < |d.order| && Total(d) > 0
    requires forall j :: 0 <= j < |d.order| ==> Get(d, d.order[j]) <= Get(d, d.order[i])
    ensures Get(d, d.order[i]) > 0
  {
    if Get(d, d.order[i]) == 0 {
      SumKeysZero(d.order, d.vals);
    }
  }

  /** `"132.76" if "Resurrection" in t['name'] else "N/A"` */
  function SigmaLevel(name: string): (s: string)
    ensures s == ResurrectionSigma <==> Contains(name, ResurrectionMarker)
    ensures s == NoSigma <==> !Contains(name, ResurrectionMarker)
  {
    if Contains(name, ResurrectionMarker) then ResurrectionSigma else NoSigma
  }

  /** The two holographic tasks carry no sigma level, the four resurrection runs do. */
  lemma TaskSigmaLevels()
    ensures forall i :: 0 <= i < |Tasks| ==> (SigmaLevel(Tasks[i].name) == ResurrectionSigma <==> i >= 2)
  {
    forall i | 0 <= i < |Tasks| ensures Contains(Tasks[i].name, ResurrectionMarker) <==> i >= 2 {
      if i == 2 {
        ContainsInfix("Exp_6_", ResurrectionMarker, "_1");
      } else if i == 3 {
        ContainsInfix("Exp_6_", ResurrectionMarker, "_2");
      } else if i == 4 {
        ContainsInfix("Exp_6_", ResurrectionMarker, "_3");
      } else if i == 5 {
        ContainsInfix("Exp_6_", ResurrectionMarker, "_4");
      } else if i == 0 {
        NotContainsBefore(Tasks[i].name, ResurrectionMarker, |Tasks[i].name|);
      } else {
        NotContainsBefore(Tasks[i].name, ResurrectionMarker, 18);
      }
    }
  }

  /** One line of the ledger (the share is kept exact, not formatted to four places). */
  datatype Row = Row(
    experiment: string, description: string, sourceJobId: string,
    totalShots: nat, topState: string, topProb: real, sigmaLevel: string)

  /**
   * The row of one task, given the histogram its job returned (`None` when
   * fetching the job or its counts raised). An empty histogram makes `max`
   * raise and a histogram without shots makes the share's division raise;
   * both leave the ledger without a row for it.
   */
  function RowOf(t: Task, fetched: Option<Dict>): (r: Option<Row>)
    requires fetched.Some? ==> Valid(fetched.value)
    ensures r.Some? <==> fetched.Some? && Total(fetched.value) > 0
    ensures r.Some? ==>
              && r.value.experiment == t.name && r.value.description == t.desc && r.value.sourceJobId == t.id
              && r.value.totalShots == Total(fetched.value)
              && r.value.sigmaLevel == SigmaLevel(t.name)
    ensures r.Some? ==>
              var counts := fetched.value;
              && r.value.topState in counts.order
              && counts.order != [] && r.value.topState == counts.order[ArgMax(counts.order, counts.vals)]
              && (forall k :: k in counts.order ==> Get(counts, k) <= Get(counts, r.value.topState))
              && r.value.topProb == Ratio(Get(counts, r.value.topState), Total(counts))
              && 0.0 < r.value.topProb <= 1.0
  {
    if fetched.None? || fetched.value.order == [] then None
    else
      var counts := fetched.value;
      var shots := Total(counts);
      var i := ArgMax(counts.order, counts.vals);
      var top := counts.order[i];
      if shots == 0 then None
      else
        MaxIsPositive(counts, i);
        GetAtMostTotal(counts, top);
        assert forall k :: k in counts.order ==> Get(counts, k) <= Get(counts, top);
        Some(Row(t.name, t.desc, t.id, shots, top, Ratio(Get(counts, top), shots), SigmaLevel(t.name)))
  }

  /** The row (or the failure) of each task, in task order. */
  function Outcomes(ts: seq<Task>, fs: seq<Option<Dict>>): (os: seq<Option<Row>>)
    requires |fs| == |ts|
    requires forall i :: 0 <= i < |fs| && fs[i].Some? ==> Valid(fs[i].value)
    ensures |os| == |ts|
    ensures forall i :: 0 <= i < |ts| ==> os[i] == RowOf(ts[i], fs[i])
  {
    if ts == [] then []
    else
      var n := |ts| - 1;
      Outcomes(ts[..n], fs[..n]) + [RowOf(ts[n], fs[n])]
  }

  /** `sync_all`: the loop over `TASKS` that appends a row for each success. */
  method SyncAll(ts: seq<Task>, fs: seq<Option<Dict>>) returns (rows: seq<Row>)
    requires |fs| == |ts|
    requires forall i :: 0 <= i < |fs| && fs[i].Some? ==> Valid(fs[i].value)
    ensures rows == Somes(Outcomes(ts, fs))
  {
    rows := [];
    for i := 0 to |ts|
      invariant rows == Somes(Outcomes(ts, fs)[..i])
    {
      var os := Outcomes(ts, fs);
      assert os[..i + 1][..i] == os[..i];
      var r := RowOf(ts[i], fs[i]);
      if r.Some? {
        rows := rows + [r.value];
      }
    }
    assert Outcomes(ts, fs)[..|ts|] == Outcomes(ts, fs);
  }
}
