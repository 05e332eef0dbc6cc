/**
 * The refining benchmark: three two-qubit circuits (noisy, noisy with the
 * pump, ideal), one fidelity per circuit computed from its histogram, and
 * the verdict that compares the cleaned fidelity with the dirty one. Keys
 * read "Q1 Q0": the left character is the ancilla Q1, the right one the
 * system qubit Q0.
 */
module ScramblingBenchmark {
  import opened Histogram
  import opened Options
  import opened Circuits
  import opened Text

  const ThetaExp: Angle := Radians(1.70)

  /** The labels of the three circuits, in submission order. */
  const Labels: seq<string> := ["Dirty (No 0.25)", "Cleaned (With 0.25)", "Ideal (Baseline)"]

  /** The marker that selects the post-selected way of scoring. */
  const PumpMarker: string := "With 0.25"

  /** Of the three labels, only the cleaned one, index 1, takes the post-selection branch. */
  lemma OnlyCleanedPostSelects()
    ensures forall i :: 0 <= i < |Labels| ==> (Contains(Labels[i], PumpMarker) <==> i == 1)
  {
    forall i | 0 <= i < |Labels| ensures Contains(Labels[i], PumpMarker) <==> i == 1 {
      if i == 1 {
        ContainsFrom(Labels[1], PumpMarker, 9);
      } else {
        NotContainsBefore(Labels[i], PumpMarker, |Labels[i]|);
      }
    }
  }

  /**
   * How one circuit is scored. The pumped circuit keeps only the shots with
   * the ancilla Q1 at 0 (keys "00" and "01") and scores the share of "00"
   * among them; the others score the share with Q0 at 0 (keys "00" and
   * "10") among all shots.
   */
  datatype Score = Plain(fidelity: real) | PostSelected(fidelity: real, survival: real)

  /** The two halves of the Q1 = 0 branch never exceed the whole histogram. */
  lemma SurvivorsAtMostTotal(counts: Dict)
    requires Valid(counts)
    ensures Get(counts, "00") + Get(counts, "01") <= Total(counts)
    ensures Get(counts, "00") + Get(counts, "10") <= Total(counts)
  {
    PairAtMostTotal(counts, "00", "01");
    PairAtMostTotal(counts, "00", "10");
  }

  /**
   * The score of one label; `None` when the histogram is empty, where
   * dividing by the total raises (for the post-selected branch, in the
   * survival rate, after the fidelity was guarded).
   */
  function ScoreOf(name: string, counts: Dict): (r: Option<Score>)
    requires Valid(counts)
    ensures r.None? <==> Total(counts) == 0
    ensures r.Some? ==> (r.value.PostSelected? <==> Contains(name, PumpMarker))
    ensures r.Some? && r.value.PostSelected? ==>
              var sub := Get(counts, "00") + Get(counts, "01");
              && (sub == 0 ==> r.value.fidelity == 0.0)
              && (sub > 0 ==> r.value.fidelity == Ratio(Get(counts, "00"), sub))
              && r.value.survival == Ratio(sub, Total(counts))
              && 0.0 <= r.value.survival <= 1.0
    ensures r.Some? && r.value.Plain? ==>
              r.value.fidelity == Ratio(Get(counts, "00") + Get(counts, "10"), Total(counts))
    ensures r.Some? ==> 0.0 <= r.value.fidelity <= 1.0
  {
    var total := Total(counts);
    if total == 0 then None
    else
      SurvivorsAtMostTotal(counts);
      if Contains(name, PumpMarker) then
        var correct := Get(counts, "00");
        var sub := correct + Get(counts, "01");
        var fidelity := if sub == 0 then 0.0 else Ratio(correct, sub);
        Some(PostSelected(fidelity, Ratio(sub, total)))
      else
        Some(Plain(Ratio(Get(counts, "00") + Get(counts, "10"), total)))
  }

  /**
   * The loop over `enumerate(labels)`, one histogram per label.
   * `complete` is false when an empty histogram ended the analysis; the
   * list then holds the fidelities of the labels before it.
   */
  method ScoreLabels(labels: seq<string>, results: seq<Dict>) returns (fidelities: seq<real>, complete: bool)
    requires |results| == |labels|
    requires forall i :: 0 <= i < |results| ==> Valid(results[i])
    ensures |fidelities| <= |labels|
    ensures complete <==> |fidelities| == |labels|
    ensures !complete ==> Total(results[|fidelities|]) == 0
    ensures forall i :: 0 <= i < |fidelities| ==>
              ScoreOf(labels[i], results[i]).Some? && fidelities[i] == ScoreOf(labels[i], results[i]).value.fidelity
    ensures forall i :: 0 <= i < |fidelities| ==> 0.0 <= fidelities[i] <= 1.0
  {
    fidelities := [];
    var i := 0;
    while i < |labels|
      invariant i <= |labels| && |fidelities| == i
      invariant forall j :: 0 <= j < i ==>
                  ScoreOf(labels[j], results[j]).Some? && fidelities[j] == ScoreOf(labels[j], results[j]).value.fidelity
    {
      var s := ScoreOf(labels[i], results[i]);
      if s.None? {
        return fidelities, false;
      }
      fidelities := fidelities + [s.value.fidelity];
      i := i + 1;
    }
    complete := true;
  }

  /** The three closing messages. */
  datatype Verdict = Purified | Improved | Puzzled

  /** The closing message, chosen from the dirty (index 0) and cleaned (index 1) fidelities. */
  function VerdictOf(dirty: real, cleaned: real): (v: Verdict)
    ensures v == Purified <==> cleaned > 0.9 && dirty < 0.7
    ensures v == Improved <==> !(cleaned > 0.9 && dirty < 0.7) && cleaned > dirty
    ensures v == Puzzled <==> !(cleaned > 0.9 && dirty < 0.7) && cleaned <= dirty
  {
    if cleaned > 0.9 && dirty < 0.7 then Purified
    else if cleaned > dirty then Improved
    else Puzzled
  }

  /** Both messages of success are given exactly when the cleaned circuit beats the dirty one. */
  lemma VerdictMeansGain(dirty: real, cleaned: real)
    ensures VerdictOf(dirty, cleaned) != Puzzled <==> cleaned > dirty
  {
  }

  /** The "+gain BOOST" annotation: present only when the cleaned fidelity is higher. */
  function Boost(fidelities: seq<real>): (g: Option<real>)
    requires |fidelities| >= 2
    ensures g.Some? <==> fidelities[1] > fidelities[0]
    ensures g.Some? ==> g.value > 0.0 && fidelities[0] + g.value == fidelities[1]
  {
    if fidelities[1] > fidelities[0] then Some(fidelities[1] - fidelities[0]) else None
  }

  /** `qc.rx(0.4 * pi, q0)` and `qc.rz(0.3 * pi, q0)`, when noise is injected. */
  function NoiseGates(injectNoise: bool): seq<Instr> {
    if injectNoise then [RotX(PiTimes(0.4), 0), RotZ(PiTimes(0.3), 0)] else []
  }

  /** `qc.ry(THETA_EXP, q1)` and `qc.cx(q1, q0)`, when the pump is used. */
  function PumpGates(useMagicPump: bool): seq<Instr> {
    if useMagicPump then [RotY(ThetaExp, 1), CNot(1, 0)] else []
  }

  /** The final basis change on q0 and the measurement of both qubits. */
  const Readout: seq<Instr> := [Hadamard(0), Measure(0, 0), Measure(1, 1)]

  /** The instructions `build_refining_experiment(inject_noise, use_magic_pump)` appends, in order. */
  function RefiningGates(injectNoise: bool, useMagicPump: bool): (g: seq<Instr>) {
    [Hadamard(0)] + NoiseGates(injectNoise) + [Barrier] + PumpGates(useMagicPump) + [Barrier] + Readout
  }

  /**
   * The circuit prepares q0 with an H, carries the noise rotations exactly
   * when noise is injected and the pump gates exactly when the pump is
   * used, and always ends with an H on q0 and the measurement of both
   * qubits.
   */
  lemma RefiningGatesShape(injectNoise: bool, useMagicPump: bool)
    ensures var g := RefiningGates(injectNoise, useMagicPump);
      && |g| == 6 + (if injectNoise then 2 else 0) + (if useMagicPump then 2 else 0)
      && g[0] == Hadamard(0)
      && g[|g| - 3..] == Readout
      && ((RotX(PiTimes(0.4), 0) in g) <==> injectNoise)
      && ((RotZ(PiTimes(0.3), 0) in g) <==> injectNoise)
      && ((RotY(ThetaExp, 1) in g) <==> useMagicPump)
      && ((CNot(1, 0) in g) <==> useMagicPump)
  {
    var g := RefiningGates(injectNoise, useMagicPump);
    var n := NoiseGates(injectNoise);
    var p := PumpGates(useMagicPump);
    assert g == [Hadamard(0)] + n + [Barrier] + p + [Barrier] + Readout;
    forall x | x in g ensures x in [Hadamard(0), Barrier] + n + p + Readout {
    }
  }

  /** `build_refining_experiment`, appending to a fresh 2-qubit, 2-bit circuit. */
  method BuildRefiningExperiment(injectNoise: bool, useMagicPump: bool) returns (qc: Circuit)
    ensures fresh(qc) && qc.numQubits == 2 && qc.numClbits == 2
    ensures qc.Valid() && qc.instrs == RefiningGates(injectNoise, useMagicPump)
  {
    qc := new Circuit(2, 2);
    qc.H(0);
    if injectNoise {
      qc.Rx(PiTimes(0.4), 0);
      qc.Rz(PiTimes(0.3), 0);
    }
    assert qc.instrs == [Hadamard(0)] + NoiseGates(injectNoise);
    qc.AddBarrier();
    ghost var prefix := qc.instrs;
    if useMagicPump {
      qc.Ry(ThetaExp, 1);
      qc.Cx(1, 0);
    }
    assert qc.instrs == prefix + PumpGates(useMagicPump);
    qc.AddBarrier();
    qc.H(0);
    qc.MeasureInto(0, 0);
    qc.MeasureInto(1, 1);
  }

  /** The three circuits of the comparison, in the order of `circuits` and of the labels. */
  method BuildComparison() returns (dirty: Circuit, cleaned: Circuit, ideal: Circuit)
    ensures fresh(dirty) && fresh(cleaned) && fresh(ideal)
    ensures dirty.instrs == RefiningGates(true, false)
    ensures cleaned.instrs == RefiningGates(true, true)
    ensures ideal.instrs == RefiningGates(false, false)
  {
    dirty := BuildRefiningExperiment(true, false);
    cleaned := BuildRefiningExperiment(true, true);
    ideal := BuildRefiningExperiment(false, false);
  }
}
