# Histogram post-processing and register allocation of the 0.25-protocol scripts

The repository is a set of Python scripts. Each one builds quantum circuits,
submits them to a cloud quantum service and post-processes the measurement
histograms that come back. This project models the part that does not
depend on the service:

- the arithmetic on the histograms: merging across jobs, splitting on the
  ancilla bit, post-selection, the equal/unequal-bit partition, the
  argmax, and the two sorts;
- the threshold rules that turn the derived ratios into verdicts;
- the shape of the instruction lists the scripts append to their circuits,
  and the index arithmetic that lays five 3-qubit/2-bit lock groups side by
  side on one circuit.

It proves what these deliver. Totals are preserved, partitions are
complete, every share of a histogram's own total lies in [0, 1], and
each division by zero is either guarded or surfaces as an error. The one
ratio over a fixed divisor, the tunnelling rate over the 4000 shots
requested, is only shown to be non-negative, since it exceeds 1 when more
than 4000 tunnelling shots come back. The sort results are permutations that
are ordered (and, for the count sort, stable). Each lock group touches only
its own indices.

Modelling choices:

- **Histograms** (module `Histogram`): a Python dict remembers insertion
  order, and the scripts observe it. `max` keeps the first maximal key,
  `sorted` is stable, and a loop that raises `KeyError` part-way has merged
  exactly the keys before the bad one. So a histogram is a
  `Dict(order, vals)`: the key list together with the map. `Valid` says
  each key occurs once and the list names exactly the map's keys.
  `Get(d, k)` is `d.get(k, 0)`, and `Total(d)` is `sum(d.values())`.
- **Ratios** are exact `real` quotients (`Ratio`), not floating point.
- **Exceptions.** A division by zero or a failing lookup inside a script's
  `try` block is an error result in the model:
  - `None` from a function;
  - `complete == false` from a loop that stops;
  - a job that is skipped.

  The exception ends whichever loop the corresponding `try` encloses.
- **The cloud service** becomes inputs. What polling a job yields is a
  `JobFetch` or an `Option<Dict>`, and the list of histograms a job
  returns is a parameter.
- **Circuits** (module `Circuits`) are a class holding the two register
  sizes and the appended instruction list. Instructions are abstract
  records (`Gate`, `Measure`, `IfBit`, `Barrier`), and their quantum
  meaning is not modelled.
- **Loops stay loops.** The scripts' accumulating loops are methods with
  loop invariants (`FetchAndMerge`, `RunGrandFinal`, `AddCounts`,
  `Marginalize`, `AnalyzeRun`, `ScoreLabels`, `SyncAll`, `BuildLattice`).
  Each is proved equal to a recursive specification function, and the
  properties are proved about that function.

## Model

| member | source | states |
|---|---|---|
| Histogram.Put | src/vacuum_geometric_lock_data.py:70 | `d[k] = v` (its contract is `Stored`) keeps the dict valid, leaves an existing key in place or appends a new one last, changes only `k`'s count, and moves the total by `v - d[k]` |
| Histogram.SumWherePartition | src/entropy_genesis_ep.py:107-112 | a key predicate and its negation split any key list's count sum exactly |
| Histogram.SumKeysPermutation | src/vacuum_geometric_lock_data.py:116-122 | the sum of the counts over a key list does not depend on the order of the keys |
| Histogram.PairAtMostTotal | src/control_broken_link_test.py:73-74 | the counts of two different keys (`get(a, 0) + get(b, 0)`) never exceed the histogram's total |
| Histogram.GetAtMostTotal | src/vacuum_geometric_lock_data.py:86 | one key's count never exceeds the total |
| Histogram.Ratio | src/vacuum_geometric_lock_data.py:60 | `part / whole` with a positive divisor: times `whole` it gives back `part`, it lies in [0, 1] when the part is at most the whole, and it is positive when the part is |
| Histogram.Probabilities | src/vacuum_geometric_lock_data.py:122 | one entry per key, entry `i` being key `i`'s count over the total |
| Histogram.ProbabilitiesSumToOne | src/vacuum_geometric_lock_data.py:122 | over any ordering of a histogram's keys, with the real shot total as divisor, the probabilities add up to exactly 1 |
| KeyOrder.StrLe | src/vacuum_geometric_lock_data.py:116 | definition: Python's `<=` on strings, comparing code points from the left with a prefix before its extensions; properties in `StrLeTotal` and `StrLeTrans` |
| KeyOrder.StrLeTotal | src/vacuum_geometric_lock_data.py:116 | Python's string order compares any two strings |
| KeyOrder.StrLeTrans | src/vacuum_geometric_lock_data.py:116 | Python's string order is transitive |
| KeyOrder.Insert | src/vacuum_geometric_lock_data.py:116 | insertion adds exactly the one key |
| KeyOrder.InsertAscending | src/vacuum_geometric_lock_data.py:116 | inserting into an ascending list keeps it ascending |
| KeyOrder.Sort | src/vacuum_geometric_lock_data.py:116 | `sorted(keys)` is a permutation of the keys in non-decreasing string order |
| KeyOrder.SortAscending | src/final_48k_verdict.py:61 | sorting a list that is already ascending leaves it unchanged |
| KeyOrder.RemoveFirst | src/vacuum_geometric_lock_data.py:118-119 | `list.remove` of a present key drops exactly one occurrence of it; Python raises ValueError on an absent key, a case the `if '000' in sorted_keys` guard rules out, and there the function returns the list unchanged only to be total |
| KeyOrder.RemoveFirstAscending | src/vacuum_geometric_lock_data.py:119 | removing a key from an ascending list keeps it ascending |
| VacuumLockData.Contributes | src/vacuum_geometric_lock_data.py:44-60 | definition: a job is merged when its status is DONE and its shot total is positive (a zero total raises at the `p0` division); properties in `AbsorbJob` and `SkippedJobChangesNothing` |
| VacuumLockData.RecordOf | src/vacuum_geometric_lock_data.py:60-66 | definition: the `job_results` entry of a merged job, with its id, `p0` as the "000" share, its shot total and its counts; properties in `AbsorbJob` and `FetchAndMerge` |
| VacuumLockData.MergeInto | src/vacuum_geometric_lock_data.py:69-70 | merging one job's counts adds each of its counts to the running dict key by key, keeps the old key order as a prefix, adds exactly the job's new keys and adds the job's total to the dict's total |
| VacuumLockData.AbsorbJob | src/vacuum_geometric_lock_data.py:33-79 | one job: a DONE job with shots is merged and recorded with its `p0`; any other job leaves `combined_data`, `total_shots_all` and `job_results` as they were |
| VacuumLockData.FetchAndMerge | src/vacuum_geometric_lock_data.py:27-79 | after the job loop, every key's merged count is its starting value (0 for "000", absent otherwise) plus its counts over the merged jobs; the key set is "000" plus every key those jobs saw, with "000" first; `total_shots_all` is the sum of their shot totals and equals the merged total; `job_results` holds one record per merged job, in job order |
| VacuumLockData.SkippedJobChangesNothing | src/vacuum_geometric_lock_data.py:44-79 | inserting a job that is not DONE, whose polling raised, or that has no shots, anywhere in the job list changes neither what is merged nor what is recorded |
| VacuumLockData.FinalStats | src/vacuum_geometric_lock_data.py:81-87 | returns early (no division) exactly when no shot was collected; otherwise `final_p0` is the merged "000" count over the shot total, lies in [0, 1] when the totals agree, and `enhancement` is positive exactly when `final_p0 > 1/8` |
| VacuumLockData.PlotOrder | src/vacuum_geometric_lock_data.py:116-120 | the bar order is a permutation of the keys; "000" comes first when present and the rest is ascending, otherwise the whole list is ascending |
| FinalVerdict.Bin3 | src/final_48k_verdict.py:22 | `format(i, '03b')` is three binary digits whose place values 4, 2, 1 add up to `i` |
| FinalVerdict.StatesAreBinary | src/final_48k_verdict.py:22 | the eight table keys are `format(i, '03b')` for `i` in `range(8)`, in that order |
| FinalVerdict.StatesDistinct | src/final_48k_verdict.py:22 | the eight table keys are pairwise different |
| FinalVerdict.InitialCounts | src/final_48k_verdict.py:22 | `final_counts` starts as a valid dict over exactly the eight states, all zero |
| FinalVerdict.StatesAscending | src/final_48k_verdict.py:61 | the eight states are already in `sorted` order |
| FinalVerdict.FirstUnknown | src/final_48k_verdict.py:37-38 | the position of the first key outside the table: every key before it is in the table, the key at it is not |
| FinalVerdict.AddCounts | src/final_48k_verdict.py:37-38 | the inner merge loop keeps the table's keys; it succeeds exactly when every key is in the table, and it has added exactly the keys before the first unknown one, with the total grown by their counts |
| FinalVerdict.RunGrandFinal | src/final_48k_verdict.py:22-41 | `grand_total_shots` is the sum of the totals of every readable job, including those that later raise KeyError; each table count is the sum of that key's admitted counts |
| FinalVerdict.AdmittedAtMostFetched | src/final_48k_verdict.py:34-41 | the table never holds more shots than `grand_total_shots`, and holds all of them when no job had a key outside the table |
| FinalVerdict.GrandVerdict | src/final_48k_verdict.py:44-62 | fails (the unguarded division) exactly when `grand_total_shots` is 0, which happens when no job was read and also when every job read returned no shots; otherwise `p0` is the "000" share, in [0, 1] when the table's total is at most the shot total; the lead is positive exactly when `p0 > 0.125`; the bars follow the sorted states, one probability each |
| FinalVerdict.LeadSign | src/final_48k_verdict.py:57 | `(p0 / 0.125 - 1) * 100` is positive exactly when `p0 > 0.125` |
| FinalVerdict.GrandProbabilitiesSumToOne | src/final_48k_verdict.py:61-62 | when every shot reached the table, the bars are "000" to "111" in order and their heights add up to 1 |
| EntropyGenesis.Zeros | src/entropy_genesis_ep.py:110 | `'0' * n` has length `n` and holds only zeros |
| EntropyGenesis.ZFill | src/entropy_genesis_ep.py:110 | `zfill(w)` leaves a string of length at least `w` unchanged, and otherwise pads it to length `w` with zeros on the left, placed after a leading sign when there is one |
| EntropyGenesis.AncillaZeroCases | src/entropy_genesis_ep.py:110-111 | a key counts as ancilla 0 exactly when its first character is '0' (two or more characters), or when it is empty or a single character other than a sign |
| EntropyGenesis.AncillaZero | src/entropy_genesis_ep.py:110-111 | definition: `k.zfill(2)[0] == '0'`; properties in `AncillaZeroCases` |
| EntropyGenesis.AncillaSplitIsTotal | src/entropy_genesis_ep.py:97-112 | the two ancilla counts add up to the total |
| EntropyGenesis.Marginalize | src/entropy_genesis_ep.py:104-112 | the counter loop yields the ancilla-0 and ancilla-1 counts, and they sum to the total |
| EntropyGenesis.SliceOf | src/entropy_genesis_ep.py:97-127 | a slice fails (the division raises) exactly when its total is 0 |
| EntropyGenesis.SliceMeaning | src/entropy_genesis_ep.py:114-127 | the survival rate is the ancilla-0 share and lies in [0, 1]; the entropy is exactly zero when one branch is empty; otherwise both branch probabilities lie strictly in (0, 1), add up to 1, and the first is the survival rate |
| EntropyGenesis.BranchesSumToOne | src/entropy_genesis_ep.py:114-115 | `n0 / total + n1 / total == 1` when `n0 + n1 == total` |
| EntropyGenesis.AnalyzeSlice | src/entropy_genesis_ep.py:97-127 | the body of the time-slice loop computes `SliceOf` |
| EntropyGenesis.AnalyzeRun | src/entropy_genesis_ep.py:92-127 | both lists grow together, one entry per time point in order, each entry that point's slice; the run is complete exactly when every point was analysed, and otherwise stops at the first slice without shots |
| ScramblingBenchmark.OnlyCleanedPostSelects | src/random_scrambling_benchmark.py:89-117 | of the three labels only index 1 contains "With 0.25" |
| ScramblingBenchmark.SurvivorsAtMostTotal | src/random_scrambling_benchmark.py:121-137 | "00" + "01" and "00" + "10" never exceed the total |
| ScramblingBenchmark.ScoreOf | src/random_scrambling_benchmark.py:115-139 | fails exactly on an empty histogram; it post-selects exactly when the label contains "With 0.25", giving a fidelity of 0 without survivors, otherwise "00" over the survivors, and a survival rate in [0, 1]; otherwise the fidelity is ("00" + "10") over the total; every fidelity lies in [0, 1] |
| ScramblingBenchmark.ScoreLabels | src/random_scrambling_benchmark.py:111-141 | one fidelity per label in label order, each the label's score and in [0, 1]; complete exactly when every label was scored, and otherwise stops at the first empty histogram |
| ScramblingBenchmark.VerdictOf | src/random_scrambling_benchmark.py:172-178 | exactly one of the three messages: purified when cleaned > 0.9 and dirty < 0.7, otherwise improved when cleaned > dirty, otherwise puzzled |
| ScramblingBenchmark.VerdictMeansGain | src/random_scrambling_benchmark.py:172-178 | a success message is printed exactly when the cleaned fidelity beats the dirty one |
| ScramblingBenchmark.Boost | src/random_scrambling_benchmark.py:157-158 | the boost annotation appears exactly when `fidelities[1] > fidelities[0]`, and the gain is positive and bridges the two |
| ScramblingBenchmark.NoiseGates | src/random_scrambling_benchmark.py:43-48 | definition: `rx(0.4 pi)` and `rz(0.3 pi)` on q0 when noise is injected, nothing otherwise; properties in `RefiningGatesShape` |
| ScramblingBenchmark.PumpGates | src/random_scrambling_benchmark.py:53-60 | definition: `ry(THETA_EXP)` on q1 and `cx(q1, q0)` when the pump is used, nothing otherwise; properties in `RefiningGatesShape` |
| ScramblingBenchmark.RefiningGates | src/random_scrambling_benchmark.py:40-73 | definition: the gate list in append order; properties in `RefiningGatesShape` and `BuildRefiningExperiment` |
| ScramblingBenchmark.RefiningGatesShape | src/random_scrambling_benchmark.py:40-73 | the circuit starts with H on q0, holds the noise rotations exactly when noise is injected and the pump gates exactly when the pump is used, and ends with H on q0 and the measurement of both qubits |
| ScramblingBenchmark.BuildRefiningExperiment | src/random_scrambling_benchmark.py:34-74 | appending step by step to a fresh 2-qubit, 2-bit circuit yields exactly the refining gate list |
| ScramblingBenchmark.BuildComparison | src/random_scrambling_benchmark.py:80-86 | the dirty, cleaned and ideal circuits are built with (noise, no pump), (noise, pump) and (no noise, no pump) |
| BrokenLink.Sync | src/control_broken_link_test.py:73 | definition: `counts.get('00', 0) + counts.get('11', 0)`; properties in `SyncChaosPartition` and `Analyze` |
| BrokenLink.Chaos | src/control_broken_link_test.py:74 | definition: `counts.get('01', 0) + counts.get('10', 0)`; properties in `SyncChaosPartition` and `Analyze` |
| BrokenLink.EqualBitsKeys | src/control_broken_link_test.py:71-74 | on two-bit keys, the equal-bit ones are exactly "00" and "11", the others exactly "01" and "10" |
| BrokenLink.SyncChaosPartition | src/control_broken_link_test.py:68-74 | on a two-bit histogram, `sync` counts the equal-bit outcomes, `chaos` the others, and together they are every shot |
| BrokenLink.Analyze | src/control_broken_link_test.py:68-84 | fails exactly on an empty histogram; both shares are counts over the total and lie in [0, 1]; success is reported exactly when `0.45 < sync / total < 0.55`, both bounds strict |
| BrokenLink.SharesSumToOne | src/control_broken_link_test.py:77-78 | on a two-bit histogram, the two printed shares add up to 1 |
| TwoBit.PairIsSumWhere | src/control_broken_link_test.py:73-74 | on a two-bit histogram, summing two named keys equals summing every key a predicate selects, when the predicate selects exactly those two |
| EvidenceSync.Tasks | src/cloud_evidence_sync.py:10-17 | definition: the six tasks with their names, job ids and descriptions; properties in `TaskSigmaLevels` |
| EvidenceSync.ArgMax | src/cloud_evidence_sync.py:44 | `max(counts, key=counts.get)`: the key's count is at least every other key's, and every key before it counts strictly less, so the first maximal key wins |
| EvidenceSync.MaxIsPositive | src/cloud_evidence_sync.py:43-52 | the most frequent key of a histogram with shots has a positive count |
| Text.Contains | src/cloud_evidence_sync.py:53 | definition: Python's substring test `t in s`, true when `t` occurs at some offset; properties in `ContainsFrom`, `ContainsInfix` and `NotContainsBefore` |
| Text.ContainsFrom | src/cloud_evidence_sync.py:53 | a string contains every substring found at an offset of it |
| Text.ContainsInfix | src/cloud_evidence_sync.py:53 | `t in p + t + r` holds for all `p`, `r` |
| Text.NotContainsBefore | src/random_scrambling_benchmark.py:117 | a string does not contain `t` when `t`'s first character is absent from a prefix and the rest of the string is shorter than `t` |
| EvidenceSync.SigmaLevel | src/cloud_evidence_sync.py:53 | "132.76" exactly when the name contains "Resurrection", "N/A" exactly otherwise |
| EvidenceSync.TaskSigmaLevels | src/cloud_evidence_sync.py:10-53 | the two holographic tasks get "N/A", the four resurrection runs "132.76" |
| EvidenceSync.RowOf | src/cloud_evidence_sync.py:40-56 | a row exists exactly when fetching succeeded and the histogram has shots; its name, description and job id come from that task; its top state is a key with the largest count, namely the first maximal key in the dict's order (`ArgMax`); its share is that count over the shots and lies in (0, 1] |
| EvidenceSync.Outcomes | src/cloud_evidence_sync.py:38-56 | one outcome per task, in task order |
| EvidenceSync.SyncAll | src/cloud_evidence_sync.py:36-57 | `rows` is the successful outcomes in task order, with failures skipped |
| Options.SomesInOrder | src/cloud_evidence_sync.py:38-56 | the kept rows are exactly the successes, in their original order, and never more rows than entries of `TASKS` |
| SuperconductingLattice.ItemsOf | src/superconducting_lattice.py:82 | `counts.items()`: one `(key, count)` pair per key, in key order |
| SuperconductingLattice.InsertDescPermutes | src/superconducting_lattice.py:82 | inserting into the sorted list adds exactly the one item |
| SuperconductingLattice.SortDesc | src/superconducting_lattice.py:82 | definition: an insertion sort on counts, largest first, that places each item before the first one it is not smaller than; properties in `SortDescCorrect` |
| SuperconductingLattice.SortDescCorrect | src/superconducting_lattice.py:82 | the sort is a permutation of the items; the sorted items have non-increasing counts, and items of equal count keep their original relative order (Python's sort is stable under `reverse=True`) |
| SuperconductingLattice.SortedCounts | src/superconducting_lattice.py:82 | definition: the items sorted by count, largest first; properties in `SortedCountsCorrect` |
| SuperconductingLattice.SortedCountsCorrect | src/superconducting_lattice.py:82 | the sorted read-out is a permutation of `counts.items()`, lists exactly the pairs of a key and its count, has non-increasing counts, and keeps equal-count keys in the dict's order |
| SuperconductingLattice.Tunnel | src/superconducting_lattice.py:87 | definition: `counts.get('10', 0) + counts.get('11', 0)`; properties in `TunnelIsLeftBitOne` and `TunnelRate` |
| SuperconductingLattice.TunnelIsLeftBitOne | src/superconducting_lattice.py:80-87 | on a two-bit histogram, "10" + "11" is the count of every outcome whose left bit, the one read from Q4, is 1 |
| SuperconductingLattice.TunnelRate | src/superconducting_lattice.py:71-88 | the rate is the tunnelling count over the requested 4000 shots and is never negative; when exactly 4000 shots came back, it is the measured share and at most 1 |
| Circuits.Circuit.constructor | src/geometric_lock_mechanism.py:52-54 | a new circuit has the given register sizes and no instructions |
| Circuits.Circuit.Append | src/geometric_lock_mechanism.py:26-44 | appending an in-range instruction adds it at the end and keeps every instruction inside the registers |
| Circuits.Circuit.H | src/geometric_lock_mechanism.py:26 | `qc.h(q)` appends one Hadamard on `q` and keeps the circuit in range |
| Circuits.Circuit.X | src/geometric_lock_mechanism.py:40 | `qc.x(q)` appends one X on `q` and keeps the circuit in range |
| Circuits.Circuit.Cx | src/geometric_lock_mechanism.py:27-28 | `qc.cx(c, t)` appends one CNOT from `c` to `t` and keeps the circuit in range |
| Circuits.Circuit.Rx | src/geometric_lock_mechanism.py:34 | `qc.rx(a, q)` appends one X rotation by `a` on `q` and keeps the circuit in range |
| Circuits.Circuit.Ry | src/random_scrambling_benchmark.py:56 | `qc.ry(a, q)` appends one Y rotation by `a` on `q` and keeps the circuit in range |
| Circuits.Circuit.Rz | src/geometric_lock_mechanism.py:33-35 | `qc.rz(a, q)` appends one Z rotation by `a` on `q` and keeps the circuit in range |
| Circuits.Circuit.MeasureInto | src/geometric_lock_mechanism.py:38-44 | `qc.measure(q, c)` appends one measurement of `q` into `c` and keeps the circuit in range |
| Circuits.Circuit.AddBarrier | src/geometric_lock_mechanism.py:63 | `qc.barrier()` appends one barrier and keeps the circuit in range |
| GeometricLock.LockBlock | src/geometric_lock_mechanism.py:16-44 | `add_geometric_lock` contributes nine instructions |
| GeometricLock.LockBlockShape | src/geometric_lock_mechanism.py:22-44 | each instruction touches only the group's three qubits and two bits; the only measurements take `q_mid` into `c_mid` and `q_out` into `c_out`, and both occur; the only conditional block is the X and Rz(-pi/4) correction on `q_out` under `c_mid == 1`, and it occurs |
| GeometricLock.CorrectionTouches | src/geometric_lock_mechanism.py:39-41 | the conditioned correction acts on `q_out` alone and on no classical bit |
| GeometricLock.AddGeometricLock | src/geometric_lock_mechanism.py:16-44 | appending step by step to the shared circuit adds exactly the lock block and keeps every instruction in range |
| GeometricLock.BuildLattice | src/geometric_lock_mechanism.py:51-63 | the group loop yields a fresh 15-qubit, 10-bit circuit of the five segments in group order, every instruction in range |
| GeometricLock.GroupQubits | src/geometric_lock_mechanism.py:58 | definition: `[i*3, i*3+1, i*3+2]`; properties in `QubitOwner` and `GroupsPartitionRegisters` |
| GeometricLock.GroupClbits | src/geometric_lock_mechanism.py:59 | definition: `[i*2, i*2+1]`; properties in `ClbitOwner` and `GroupsPartitionRegisters` |
| GeometricLock.Segment | src/geometric_lock_mechanism.py:58-63 | definition: group `i`'s lock block followed by its barrier; properties in `LatticeAt` and `GroupTouchesOwnIndices` |
| GeometricLock.Lattice | src/geometric_lock_mechanism.py:56-63 | definition: the segments of the first `n` groups in group order; properties in `LatticeLength`, `LatticePrefix`, `LatticeAt` and `GroupTouchesOwnIndices` |
| GeometricLock.QubitOwner | src/geometric_lock_mechanism.py:58 | a qubit lies in group `i` exactly when its index divided by 3 is `i` |
| GeometricLock.ClbitOwner | src/geometric_lock_mechanism.py:59 | a classical bit lies in group `i` exactly when its index divided by 2 is `i` |
| GeometricLock.GroupsPartitionRegisters | src/geometric_lock_mechanism.py:51-59 | the group indices are in range (qubits < 15, bits < 10), cover both registers, and no index lies in two groups |
| GeometricLock.LatticeLength | src/geometric_lock_mechanism.py:56-63 | `n` groups lay ten instructions each |
| GeometricLock.LatticePrefix | src/geometric_lock_mechanism.py:56-63 | laying later groups leaves earlier groups' instructions unchanged |
| GeometricLock.LatticeAt | src/geometric_lock_mechanism.py:56-63 | instruction `k` of the circuit is instruction `k % 10` of group `k / 10`'s segment |
| GeometricLock.GroupTouchesOwnIndices | src/geometric_lock_mechanism.py:56-63 | every instruction of the five-group circuit touches only the indices of its own group, and the barriers are exactly every tenth instruction |

## Left out

- The cloud service: connecting, selecting a backend, transpiling, submitting, waiting and `job.result()`. These are network and SDK calls. Their outcomes are inputs of the model (`JobFetch`, `Option<Dict>`, lists of histograms).
- Reading counts out of a result. The `data.c` / `data.meas` fallbacks and `get_counts_robust` rely on reflection over SDK objects, so the histogram a result yields is an input.
- What gates do to a quantum state. Instructions are records of gate name, angles and indices.
- `build_ep_circuit` in src/entropy_genesis_ep.py. It lies outside the analysis loop this model covers, and it only appends three gates and a measurement.
- The Shannon entropy value `-p0 log2 p0 - p1 log2 p1`. Real logarithms are not available, so the entropy is kept as the pair of branch probabilities it is taken of (`Shannon(p0, p1)`).
- The standard error and sigma level of src/final_48k_verdict.py:48-49, because they need a square root.
- Floating point in general. Ratios are exact reals, so rounding in the scripts' float divisions and additions is not modelled.
- Number formatting: `:.4f`, percentages, and the four-decimal `Top_Prob` string in the evidence ledger, which the model keeps as the exact share.
- The time points `np.linspace(0, 6.0, 15)`, and the `abs(t - 5.0) < 0.5` print filter. The analysis is modelled over whatever list of histograms the job returns.
- Plotting (matplotlib, PdfPages), the JSON and CSV files, and all console output, including the "still queued" and "abnormal status" messages, which change no state.
- `datetime.now()` in the exported JSON, because it is a clock.
- The scripts src/build_optimized_butterfly.py, src/vacuum_geometric_lock.py, src/dynamic_causal_repair.py, src/superconducting_link_protocol.py, src/tensor_network_solver.py and "src/scaling law.py". They are circuit construction and submission, with no post-processing beyond single `counts.get` lookups divided by the total or by 4000 (`'10'` in src/tensor_network_solver.py; `'10'` and `'01'` in src/superconducting_link_protocol.py). This model covers only the eight scripts above.
- Circuits.Circuit.Append: an index outside the registers is a precondition here. The circuit library raises an error for it, and no script reaches that path.
