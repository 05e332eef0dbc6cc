/**
 * src/vacuum_geometric_lock_data.py: fetch the histograms of several jobs,
 * merge them into `combined_data`, compare the merged probability of "000"
 * with the random floor 1/8, and order the bars of the plot.
 */
module VacuumLockData {
  import opened Histogram
  import opened Options
  import KeyOrder

  /** The outcome the reversal is expected to restore. */
  const Anchor: string := "000"

  /** RANDOM_BASELINE: one of eight 3-bit outcomes at random. */
  const RandomBaseline: real := 1.0 / 8.0

  /** What asking the service for one job yields. */
  datatype JobFetch =
    | FetchRaised                          // service.job, status or result raised
    | Polled(status: string, counts: Dict) // the status name and, for DONE, the histogram

  /** One entry of `job_results`. */
  datatype JobRecord = JobRecord(id: string, p0: real, shots: nat, counts: Dict)

  ghost predicate WellFormed(fs: seq<JobFetch>) {
    forall i :: 0 <= i < |fs| && fs[i].Polled? ==> Valid(fs[i].counts)
  }

  /**
   * A job is merged when it is DONE and has at least one shot; with zero
   * shots the per-job `p0` division raises ZeroDivisionError, which the
   * loop's except clause swallows before anything is recorded.
   */
  predicate Contributes(f: JobFetch) {
    f.Polled? && f.status == "DONE" && Total(f.counts) > 0
  }

  /** The histograms that get merged, in job order. */
  function Contributions(fs: seq<JobFetch>): seq<Dict> {
    if fs == [] then []
    else
      var f := fs[|fs| - 1];
      Contributions(fs[..|fs| - 1]) + (if Contributes(f) then [f.counts] else [])
  }

  /** The records `job_results` receives, in job order. */
  function Records(ids: seq<string>, fs: seq<JobFetch>): seq<JobRecord>
    requires |ids| == |fs|
  {
    if fs == [] then []
    else
      var f := fs[|fs| - 1];
      Records(ids[..|ids| - 1], fs[..|fs| - 1])
      + (if Contributes(f) then RecordOf(ids[|ids| - 1], f) else [])
  }

  /** The sum of the shot totals of a list of histograms. */
  function Shots(cs: seq<Dict>): nat {
    if cs == [] then 0 else Shots(cs[..|cs| - 1]) + Total(cs[|cs| - 1])
  }

  /** The sum of the counts of key `k` over a list of histograms. */
  function CountIn(cs: seq<Dict>, k: string): nat {
    if cs == [] then 0 else CountIn(cs[..|cs| - 1], k) + Get(cs[|cs| - 1], k)
  }

  ghost predicate SeenIn(cs: seq<Dict>, k: string) {
    exists i :: 0 <= i < |cs| && k in cs[i].vals
  }

  /** The state of the merge loop once the keys `done` of `counts` have been added. */
  ghost predicate MergedWith(acc: Dict, done: seq<string>, counts: Dict, r: Dict) {
    && Accumulated(acc, done, counts, r)
    && MergedKeys(acc, done, r)
    && IsPrefix(acc.order, r.order)
  }

  ghost predicate IsPrefix(pre: seq<string>, s: seq<string>) {
    |pre| <= |s| && s[..|pre|] == pre
  }

  ghost predicate MergedKeys(acc: Dict, done: seq<string>, r: Dict) {
    forall k :: k in r.vals <==> k in acc.vals || k in done
  }

  lemma MergeStep(acc: Dict, done: seq<string>, counts: Dict, r: Dict, k: string, r': Dict)
    requires MergedWith(acc, done, counts, r) && k !in done
    requires Stored(r, k, Get(r, k) + Get(counts, k), r')
    ensures MergedWith(acc, done + [k], counts, r')
  {
    AccumulateStep(acc, done, counts, r, k, r');
    StepKeys(acc, done, r, k, r');
    StepPrefix(acc, r, k, r');
  }

  lemma StepPrefix(acc: Dict, r: Dict, k: string, r': Dict)
    requires IsPrefix(acc.order, r.order)
    requires r'.order == (if k in r.vals then r.order else r.order + [k])
    ensures IsPrefix(acc.order, r'.order)
  {
    assert (r.order + [k])[..|acc.order|] == r.order[..|acc.order|];
  }

  lemma StepKeys(acc: Dict, done: seq<string>, r: Dict, k: string, r': Dict)
    requires MergedKeys(acc, done, r) && Valid(r) && Valid(r')
    requires r'.order == (if k in r.vals then r.order else r.order + [k])
    ensures MergedKeys(acc, done + [k], r')
  {
    forall k' ensures k' in r'.vals <==> k' in acc.vals || k' in done + [k] {
      assert k' in done + [k] <==> k' in done || k' == k;
    }
  }

  /**
   * The inner loop `for k, v in counts.items(): combined_data[k] =
   * combined_data.get(k, 0) + v`: counts add up key by key, keys already
   * present keep their place and new keys follow in `counts`' order.
   */
  method MergeInto(acc: Dict, counts: Dict) returns (r: Dict)
    requires Valid(acc) && Valid(counts)
    ensures Valid(r)
    ensures forall k :: Get(r, k) == Get(acc, k) + Get(counts, k)
    ensures forall k :: k in r.vals <==> k in acc.vals || k in counts.vals
    ensures IsPrefix(acc.order, r.order)
    ensures Total(r) == Total(acc) + Total(counts)
  {
    r := acc;
    var i := 0;
    assert counts.order[..0] == [];
    while i < |counts.order|
      invariant 0 <= i <= |counts.order|
      invariant MergedWith(acc, counts.order[..i], counts, r)
    {
      var k := counts.order[i];
      var r' := Put(r, k, Get(r, k) + Get(counts, k));
      TakeSnoc(counts.order, i);
      DistinctAt(counts.order, i);
      MergeStep(acc, counts.order[..i], counts, r, k, r');
      r := r';
      i := i + 1;
    }
    assert counts.order[..i] == counts.order;
  }

  lemma ContributionsStep(fs: seq<JobFetch>, i: nat)
    requires i < |fs|
    ensures Contributions(fs[..i + 1]) == Contributions(fs[..i]) + (if Contributes(fs[i]) then [fs[i].counts] else [])
  {
    assert fs[..i + 1][..i] == fs[..i];
  }

  lemma RecordsStep(ids: seq<string>, fs: seq<JobFetch>, i: nat)
    requires |ids| == |fs| && i < |fs|
    ensures Records(ids[..i + 1], fs[..i + 1]) == Records(ids[..i], fs[..i])
      + (if Contributes(fs[i]) then RecordOf(ids[i], fs[i]) else [])
  {
    assert fs[..i + 1][..i] == fs[..i];
    assert ids[..i + 1][..i] == ids[..i];
  }

  lemma AppendContribution(cs: seq<Dict>, c: Dict)
    ensures Shots(cs + [c]) == Shots(cs) + Total(c)
    ensures forall k :: CountIn(cs + [c], k) == CountIn(cs, k) + Get(c, k)
    ensures forall k :: SeenIn(cs + [c], k) <==> SeenIn(cs, k) || k in c.vals
  {
    var after := cs + [c];
    assert after[..|after| - 1] == cs;
    forall k | SeenIn(after, k) ensures SeenIn(cs, k) || k in c.vals {
      var j :| 0 <= j < |after| && k in after[j].vals;
      if j < |cs| { assert cs[j] == after[j]; }
    }
    forall k | k in c.vals ensures SeenIn(after, k) {
      assert after[|cs|] == c;
    }
    forall k | SeenIn(cs, k) ensures SeenIn(after, k) {
      var j :| 0 <= j < |cs| && k in cs[j].vals;
      assert after[j] == cs[j];
    }
  }

  /** `combined_data` and `total_shots_all` after merging the histograms `cs`. */
  ghost predicate Gathered(cs: seq<Dict>, combined: Dict, totalShots: nat) {
    && Valid(combined) && |combined.order| > 0 && combined.order[0] == Anchor
    && (forall k :: Get(combined, k) == CountIn(cs, k))
    && (forall k :: k in combined.vals <==> k == Anchor || SeenIn(cs, k))
    && totalShots == Shots(cs)
    && Total(combined) == totalShots
  }

  lemma GatherStep(cs: seq<Dict>, c: Dict, combined: Dict, totalShots: nat, merged: Dict)
    requires Gathered(cs, combined, totalShots)
    requires Valid(merged)
    requires forall k :: Get(merged, k) == Get(combined, k) + Get(c, k)
    requires forall k :: k in merged.vals <==> k in combined.vals || k in c.vals
    requires IsPrefix(combined.order, merged.order)
    requires Total(merged) == Total(combined) + Total(c)
    ensures Gathered(cs + [c], merged, totalShots + Total(c))
  {
    AppendContribution(cs, c);
    assert merged.order[0] == merged.order[..|combined.order|][0];
  }

  /** The record a contributing job adds to `job_results`. */
  function RecordOf(id: string, f: JobFetch): seq<JobRecord>
    requires Contributes(f)
  {
    [JobRecord(id, Ratio(Get(f.counts, Anchor), Total(f.counts)), Total(f.counts), f.counts)]
  }

  /**
   * One pass of the job loop: a DONE job with shots is recorded and merged
   * into `combined_data`; every other job leaves both unchanged.
   */
  method AbsorbJob(ghost cs: seq<Dict>, combined: Dict, totalShots: nat, id: string, f: JobFetch)
    returns (combined': Dict, totalShots': nat, added: seq<JobRecord>)
    requires Gathered(cs, combined, totalShots)
    requires f.Polled? ==> Valid(f.counts)
    ensures Gathered(cs + (if Contributes(f) then [f.counts] else []), combined', totalShots')
    ensures added == if Contributes(f) then RecordOf(id, f) else []
  {
    combined', totalShots', added := combined, totalShots, [];
    if f.Polled? && f.status == "DONE" {
      var shots := Total(f.counts);
      if shots > 0 {
        var p0 := Ratio(Get(f.counts, Anchor), shots);
        added := [JobRecord(id, p0, shots, f.counts)];
        var merged := MergeInto(combined, f.counts);
        GatherStep(cs, f.counts, combined, totalShots, merged);
        combined' := merged;
      } else {
        assert cs + [] == cs;
      }
      totalShots' := totalShots + shots;
    } else {
      assert cs + [] == cs;
    }
  }

  /**
   * Step A of `fetch_and_visualize`: poll every job, and merge the DONE
   * ones into `combined_data`, which starts as {"000": 0}, while
   * `total_shots_all` accumulates their shot totals.
   */
  method FetchAndMerge(ids: seq<string>, fetches: seq<JobFetch>)
    returns (combined: Dict, totalShots: nat, records: seq<JobRecord>)
    requires |ids| == |fetches| && WellFormed(fetches)
    ensures Valid(combined) && |combined.order| > 0 && combined.order[0] == Anchor
    ensures forall k :: Get(combined, k) == CountIn(Contributions(fetches), k)
    ensures forall k :: k in combined.vals <==> k == Anchor || SeenIn(Contributions(fetches), k)
    ensures totalShots == Shots(Contributions(fetches))
    ensures Total(combined) == totalShots
    ensures records == Records(ids, fetches)
  {
    combined := Dict([Anchor], map[Anchor := 0]);
    totalShots := 0;
    records := [];
    TotalSingleton(Anchor, 0);
    assert fetches[..0] == [] && ids[..0] == [];
    for i := 0 to |fetches|
      invariant Gathered(Contributions(fetches[..i]), combined, totalShots)
      invariant records == Records(ids[..i], fetches[..i])
    {
      ContributionsStep(fetches, i);
      RecordsStep(ids, fetches, i);
      var added;
      combined, totalShots, added := AbsorbJob(Contributions(fetches[..i]), combined, totalShots, ids[i], fetches[i]);
      records := records + added;
    }
    assert fetches[..|fetches|] == fetches;
    assert ids[..|ids|] == ids;
  }

  /**
   * A job that is not DONE, whose polling raised, or that has no shots
   * changes nothing, wherever it stands among the jobs.
   */
  lemma {:induction false} SkippedJobChangesNothing(
    idsA: seq<string>, id: string, idsB: seq<string>,
    a: seq<JobFetch>, f: JobFetch, b: seq<JobFetch>)
    requires |idsA| == |a| && |idsB| == |b| && !Contributes(f)
    ensures Contributions(a + [f] + b) == Contributions(a + b)
    ensures Records(idsA + [id] + idsB, a + [f] + b) == Records(idsA + idsB, a + b)
  {
    if b == [] {
      assert a + [f] + b == a + [f];
      assert (a + [f])[..|a|] == a;
      assert idsA + [id] + idsB == idsA + [id];
      assert (idsA + [id])[..|idsA|] == idsA;
      assert a + b == a;
      assert idsA + idsB == idsA;
    } else {
      var b', g := b[..|b| - 1], b[|b| - 1];
      var idsB', h := idsB[..|idsB| - 1], idsB[|idsB| - 1];
      SkippedJobChangesNothing(idsA, id, idsB', a, f, b');
      assert (a + [f] + b)[..|a + [f] + b| - 1] == a + [f] + b';
      assert (a + b)[..|a + b| - 1] == a + b';
      assert (idsA + [id] + idsB)[..|idsA + [id] + idsB| - 1] == idsA + [id] + idsB';
      assert (idsA + idsB)[..|idsA + idsB| - 1] == idsA + idsB';
    }
  }

  /** Step B: the merged survival probability of "000" and its gain over the random floor. */
  datatype FinalReport = FinalReport(p0: real, enhancement: real)

  /**
   * `None` is the early return taken when no shot was collected, so the
   * division runs only with a positive total.
   */
  function FinalStats(combined: Dict, totalShots: nat): (r: Option<FinalReport>)
    ensures r.None? <==> totalShots == 0
    ensures r.Some? ==> r.value.p0 * totalShots as real == Get(combined, Anchor) as real
    ensures r.Some? && Valid(combined) && Total(combined) == totalShots ==> 0.0 <= r.value.p0 <= 1.0
    ensures r.Some? ==> (r.value.enhancement > 0.0 <==> r.value.p0 > RandomBaseline)
  {
    if totalShots == 0 then None
    else
      var p0 := Ratio(Get(combined, Anchor), totalShots);
      assert Valid(combined) && Total(combined) == totalShots ==> Get(combined, Anchor) <= totalShots by {
        if Valid(combined) && Total(combined) == totalShots {
          GetAtMostTotal(combined, Anchor);
        }
      }
      Some(FinalReport(p0, (p0 - RandomBaseline) / RandomBaseline * 100.0))
  }

  /**
   * `generate_plot`'s bar order: the keys sorted, then "000" moved to the
   * front when it is present.
   */
  method PlotOrder(keys: seq<string>) returns (ordered: seq<string>)
    ensures multiset(ordered) == multiset(keys)
    ensures Anchor in keys ==> ordered[0] == Anchor && KeyOrder.Ascending(ordered[1..])
    ensures Anchor !in keys ==> KeyOrder.Ascending(ordered)
  {
    ordered := KeyOrder.Sort(keys);
    assert Anchor in keys <==> Anchor in multiset(ordered);
    if Anchor in ordered {
      KeyOrder.RemoveFirstAscending(ordered, Anchor);
      ordered := KeyOrder.RemoveFirst(ordered, Anchor);
      ordered := [Anchor] + ordered;
      assert ordered[1..] == KeyOrder.RemoveFirst(KeyOrder.Sort(keys), Anchor);
    }
  }
}
