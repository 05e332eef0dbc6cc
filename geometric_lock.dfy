/**
 * The five-fold lattice of geometric locks: group `i` of five gets qubits
 * `3i, 3i+1, 3i+2` of a 15-qubit register and classical bits `2i, 2i+1` of a
 * 10-bit register; each group's lock block is appended to the one shared
 * circuit, followed by a barrier.
 */
module GeometricLock {
  import opened Circuits

  const NumGroups: nat := 5
  const QubitsPerGroup: nat := 3
  const ClbitsPerGroup: nat := 2

  /** `gamma_z = pi / 4` and `gamma_x = pi / 8` */
  const GammaZ: Angle := PiTimes(0.25)
  const GammaX: Angle := PiTimes(0.125)
  const MinusGammaZ: Angle := PiTimes(-0.25)

  /** `[i*3, i*3+1, i*3+2]` */
  function GroupQubits(i: nat): seq<nat> {
    [i * 3, i * 3 + 1, i * 3 + 2]
  }

  /** `[i*2, i*2+1]` */
  function GroupClbits(i: nat): seq<nat> {
    [i * 2, i * 2 + 1]
  }

  /** The feed-forward correction on `q_out`, run when `c_mid` reads 1. */
  function Correction(qOut: nat): seq<Instr> {
    [PauliX(qOut), RotZ(MinusGammaZ, qOut)]
  }

  /**
   * What `add_geometric_lock(qc, [q_in, q_mid, q_out], [c_mid, c_out])`
   * appends: an entangling ladder, the geometric rotations, a mid-circuit
   * measurement of `q_mid` into `c_mid` that conditions the correction on
   * `q_out`, and the final measurement of `q_out` into `c_out`.
   */
  function LockBlock(q: seq<nat>, c: seq<nat>): (b: seq<Instr>)
    requires |q| == 3 && |c| == 2
    ensures |b| == 9
  {
    [ Hadamard(q[0]), CNot(q[0], q[1]), CNot(q[1], q[2]),
      RotZ(GammaZ, q[1]), RotX(GammaX, q[1]), RotZ(GammaZ, q[2]),
      Measure(q[1], c[0]),
      IfBit(c[0], 1, Correction(q[2])),
      Measure(q[2], c[1]) ]
  }

  /**
   * A lock block touches only its three qubits and two classical bits; its
   * only measurements take `q_mid` into `c_mid` and `q_out` into `c_out`,
   * and its only conditional block is the correction of `q_out` on
   * `c_mid == 1`.
   */
  lemma LockBlockShape(q: seq<nat>, c: seq<nat>)
    requires |q| == 3 && |c| == 2
    ensures forall k :: 0 <= k < 9 ==>
              Qubits(LockBlock(q, c)[k]) <= {q[0], q[1], q[2]} && Clbits(LockBlock(q, c)[k]) <= {c[0], c[1]}
    ensures forall k :: 0 <= k < 9 && LockBlock(q, c)[k].Measure? ==>
              LockBlock(q, c)[k] == Measure(q[1], c[0]) || LockBlock(q, c)[k] == Measure(q[2], c[1])
    ensures Measure(q[1], c[0]) in LockBlock(q, c) && Measure(q[2], c[1]) in LockBlock(q, c)
    ensures forall k :: 0 <= k < 9 && LockBlock(q, c)[k].IfBit? ==> LockBlock(q, c)[k] == IfBit(c[0], 1, Correction(q[2]))
    ensures IfBit(c[0], 1, Correction(q[2])) in LockBlock(q, c)
  {
    CorrectionTouches(q[2]);
  }

  lemma CorrectionTouches(qOut: nat)
    ensures QubitsOfAll(Correction(qOut)) == {qOut} && ClbitsOfAll(Correction(qOut)) == {}
  {
    var xs := Correction(qOut);
    assert xs[..1] == [PauliX(qOut)] && xs[..1][..0] == [];
    assert Qubits(PauliX(qOut)) == {qOut} == Qubits(RotZ(MinusGammaZ, qOut));
    assert QubitsOfAll(xs[..1]) == QubitsOfAll([]) + Qubits(PauliX(qOut));
    assert ClbitsOfAll(xs[..1]) == ClbitsOfAll([]) + Clbits(PauliX(qOut));
  }

  /** `add_geometric_lock`, appending to the shared circuit step by step. */
  method AddGeometricLock(qc: Circuit, q: seq<nat>, c: seq<nat>)
    requires qc.Valid() && |q| == 3 && |c| == 2
    requires q[0] < qc.numQubits && q[1] < qc.numQubits && q[2] < qc.numQubits
    requires c[0] < qc.numClbits && c[1] < qc.numClbits
    modifies qc
    ensures qc.Valid() && qc.instrs == old(qc.instrs) + LockBlock(q, c)
  {
    CorrectionTouches(q[2]);
    qc.H(q[0]);
    qc.Cx(q[0], q[1]);
    qc.Cx(q[1], q[2]);
    qc.Rz(GammaZ, q[1]);
    qc.Rx(GammaX, q[1]);
    qc.Rz(GammaZ, q[2]);
    qc.MeasureInto(q[1], c[0]);
    qc.Append(IfBit(c[0], 1, Correction(q[2])));
    qc.MeasureInto(q[2], c[1]);
  }

  /** Group `i`'s part of the circuit: its lock block and the barrier after it. */
  function Segment(i: nat): seq<Instr> {
    LockBlock(GroupQubits(i), GroupClbits(i)) + [Barrier]
  }

  /** The circuit after the first `n` groups have been laid. */
  function Lattice(n: nat): seq<Instr> {
    if n == 0 then [] else Lattice(n - 1) + Segment(n - 1)
  }

  /** The group allocation loop over `range(num_groups)`. */
  method BuildLattice() returns (qc: Circuit)
    ensures fresh(qc)
    ensures qc.numQubits == NumGroups * QubitsPerGroup && qc.numClbits == NumGroups * ClbitsPerGroup
    ensures qc.Valid() && qc.instrs == Lattice(NumGroups)
  {
    qc := new Circuit(NumGroups * QubitsPerGroup, NumGroups * ClbitsPerGroup);
    for i := 0 to NumGroups
      invariant qc.Valid() && qc.instrs == Lattice(i)
    {
      var qIdx, cIdx := GroupQubits(i), GroupClbits(i);
      AddGeometricLock(qc, qIdx, cIdx);
      qc.AddBarrier();
    }
  }

  /** A qubit belongs to group `i` exactly when `i` is its index divided by 3. */
  lemma QubitOwner(i: nat, q: nat)
    ensures q in GroupQubits(i) <==> q / 3 == i
  {
  }

  /** A classical bit belongs to group `i` exactly when `i` is its index divided by 2. */
  lemma ClbitOwner(i: nat, c: nat)
    ensures c in GroupClbits(i) <==> c / 2 == i
  {
  }

  /**
   * The groups split both registers: every index in range lies in exactly
   * one group, each group's indices are in range, and no index lies in two.
   */
  lemma GroupsPartitionRegisters()
    ensures forall i: nat, q: nat :: i < NumGroups && q in GroupQubits(i) ==> q < NumGroups * QubitsPerGroup
    ensures forall i: nat, c: nat :: i < NumGroups && c in GroupClbits(i) ==> c < NumGroups * ClbitsPerGroup
    ensures forall q: nat :: q < NumGroups * QubitsPerGroup ==> q / 3 < NumGroups && q in GroupQubits(q / 3)
    ensures forall c: nat :: c < NumGroups * ClbitsPerGroup ==> c / 2 < NumGroups && c in GroupClbits(c / 2)
    ensures forall i, j, q :: q in GroupQubits(i) && q in GroupQubits(j) ==> i == j
    ensures forall i, j, c :: c in GroupClbits(i) && c in GroupClbits(j) ==> i == j
  {
    forall i: nat, q: nat ensures q in GroupQubits(i) <==> q / 3 == i {
      QubitOwner(i, q);
    }
    forall i: nat, c: nat ensures c in GroupClbits(i) <==> c / 2 == i {
      ClbitOwner(i, c);
    }
  }

  lemma {:induction false} LatticeLength(n: nat)
    ensures |Lattice(n)| == 10 * n
  {
    if n > 0 {
      LatticeLength(n - 1);
    }
  }

  /** Laying later groups leaves the instructions of earlier groups unchanged. */
  lemma {:induction false} LatticePrefix(m: nat, n: nat)
    requires m <= n
    ensures |Lattice(m)| <= |Lattice(n)| && Lattice(n)[..|Lattice(m)|] == Lattice(m)
  {
    if m < n {
      LatticePrefix(m, n - 1);
      LatticeLength(n - 1);
      assert Lattice(n)[..|Lattice(n - 1)|] == Lattice(n - 1);
    }
  }

  /** Instruction `k` of the lattice is instruction `k % 10` of group `k / 10`'s segment. */
  lemma {:induction false} LatticeAt(n: nat, k: nat)
    requires k < 10 * n
    ensures |Lattice(n)| == 10 * n && Lattice(n)[k] == Segment(k / 10)[k % 10]
  {
    LatticeLength(n - 1);
    var init := Lattice(n - 1);
    if k < 10 * (n - 1) {
      LatticeAt(n - 1, k);
      assert Lattice(n)[k] == init[k];
    } else {
      var p := k - 10 * (n - 1);
      assert k / 10 == n - 1 && k % 10 == p;
      assert Lattice(n)[k] == Segment(n - 1)[p];
    }
  }

  /**
   * Each instruction of the lattice touches only the qubits and classical
   * bits of the group whose segment it belongs to; barriers are the tenth
   * instruction of every segment.
   */
  lemma GroupTouchesOwnIndices(k: nat)
    requires k < 10 * NumGroups
    ensures k / 10 < NumGroups
    ensures forall q :: q in Qubits(Lattice(NumGroups)[k]) ==> q / 3 == k / 10
    ensures forall c :: c in Clbits(Lattice(NumGroups)[k]) ==> c / 2 == k / 10
    ensures Lattice(NumGroups)[k] == Barrier <==> k % 10 == 9
  {
    LatticeAt(NumGroups, k);
    var i, p := k / 10, k % 10;
    var instr := Lattice(NumGroups)[k];
    if p < 9 {
      var b := LockBlock(GroupQubits(i), GroupClbits(i));
      assert instr == b[p];
      LockBlockShape(GroupQubits(i), GroupClbits(i));
      forall q | q in Qubits(instr) ensures q / 3 == i {
        QubitOwner(i, q);
      }
      forall c | c in Clbits(instr) ensures c / 2 == i {
        ClbitOwner(i, c);
      }
    }
  }
}
