/**
 * Quantum circuits as the scripts build them: a register of qubits and one
 * of classical bits, and the list of instructions appended so far. An
 * instruction is an abstract record — its name, its rotation angle and the
 * register indices it touches; what it does to a quantum state is not
 * modelled.
 */
module Circuits {

  /** An angle, as a multiple of pi or as a literal in radians. */
  datatype Angle = PiTimes(k: real) | Radians(x: real)

  datatype Instr =
    | Gate(name: string, angles: seq<Angle>, qubits: seq<nat>)
    | Measure(qubit: nat, clbit: nat)
      /** `with qc.if_test((clbit, value)):` followed by its body. */
    | IfBit(clbit: nat, value: nat, body: seq<Instr>)
      /** `qc.barrier()` with no arguments: it spans every qubit. */
    | Barrier

  function Hadamard(q: nat): Instr { Gate("h", [], [q]) }
  function PauliX(q: nat): Instr { Gate("x", [], [q]) }
  function CNot(control: nat, target: nat): Instr { Gate("cx", [], [control, target]) }
  function RotX(a: Angle, q: nat): Instr { Gate("rx", [a], [q]) }
  function RotY(a: Angle, q: nat): Instr { Gate("ry", [a], [q]) }
  function RotZ(a: Angle, q: nat): Instr { Gate("rz", [a], [q]) }

  /** The qubits an instruction names explicitly (a barrier names none). */
  function Qubits(i: Instr): set<nat> {
    match i
    case Gate(_, _, qs) => set q | q in qs
    case Measure(q, _) => {q}
    case IfBit(_, _, body) => QubitsOfAll(body)
    case Barrier => {}
  }

  function QubitsOfAll(body: seq<Instr>): set<nat>
    decreases body
  {
    if body == [] then {} else QubitsOfAll(body[..|body| - 1]) + Qubits(body[|body| - 1])
  }

  /** The classical bits an instruction writes or reads. */
  function Clbits(i: Instr): set<nat> {
    match i
    case Gate(_, _, _) => {}
    case Measure(_, c) => {c}
    case IfBit(c, _, body) => {c} + ClbitsOfAll(body)
    case Barrier => {}
  }

  function ClbitsOfAll(body: seq<Instr>): set<nat>
    decreases body
  {
    if body == [] then {} else ClbitsOfAll(body[..|body| - 1]) + Clbits(body[|body| - 1])
  }

  /** Every index an instruction names lies in a register of the given sizes. */
  predicate InRegisters(i: Instr, numQubits: nat, numClbits: nat) {
    (forall q :: q in Qubits(i) ==> q < numQubits) && (forall c :: c in Clbits(i) ==> c < numClbits)
  }

  /** `QuantumCircuit(QuantumRegister(numQubits), ClassicalRegister(numClbits))` */
  class Circuit {
    const numQubits: nat
    const numClbits: nat
    var instrs: seq<Instr>

    /** Every appended instruction stays inside the registers. */
    ghost predicate Valid()
      reads this
    {
      forall k :: 0 <= k < |instrs| ==> InRegisters(instrs[k], numQubits, numClbits)
    }

    constructor(numQubits: nat, numClbits: nat)
      ensures this.numQubits == numQubits && this.numClbits == numClbits
      ensures instrs == [] && Valid()
    {
      this.numQubits := numQubits;
      this.numClbits := numClbits;
      instrs := [];
    }

    /**
     * Appends one instruction. An index outside the registers is refused
     * by the circuit library, so the caller must stay inside them.
     */
    method Append(i: Instr)
      requires Valid() && InRegisters(i, numQubits, numClbits)
      modifies this
      ensures Valid() && instrs == old(instrs) + [i]
    {
      instrs := instrs + [i];
    }

    /** `qc.h(q)` */
    method H(q: nat)
      requires Valid() && q < numQubits
      modifies this
      ensures Valid() && instrs == old(instrs) + [Hadamard(q)]
    {
      Append(Hadamard(q));
    }

    /** `qc.x(q)` */
    method X(q: nat)
      requires Valid() && q < numQubits
      modifies this
      ensures Valid() && instrs == old(instrs) + [PauliX(q)]
    {
      Append(PauliX(q));
    }

    /** `qc.cx(control, target)` */
    method Cx(control: nat, target: nat)
      requires Valid() && control < numQubits && target < numQubits
      modifies this
      ensures Valid() && instrs == old(instrs) + [CNot(control, target)]
    {
      Append(CNot(control, target));
    }

    /** `qc.rx(a, q)` */
    method Rx(a: Angle, q: nat)
      requires Valid() && q < numQubits
      modifies this
      ensures Valid() && instrs == old(instrs) + [RotX(a, q)]
    {
      Append(RotX(a, q));
    }

    /** `qc.ry(a, q)` */
    method Ry(a: Angle, q: nat)
      requires Valid() && q < numQubits
      modifies this
      ensures Valid() && instrs == old(instrs) + [RotY(a, q)]
    {
      Append(RotY(a, q));
    }

    /** `qc.rz(a, q)` */
    method Rz(a: Angle, q: nat)
      requires Valid() && q < numQubits
      modifies this
      ensures Valid() && instrs == old(instrs) + [RotZ(a, q)]
    {
      Append(RotZ(a, q));
    }

    /** `qc.measure(q, c)` */
    method MeasureInto(q: nat, c: nat)
      requires Valid() && q < numQubits && c < numClbits
      modifies this
      ensures Valid() && instrs == old(instrs) + [Measure(q, c)]
    {
      Append(Measure(q, c));
    }

    /** `qc.barrier()` */
    method AddBarrier()
      requires Valid()
      modifies this
      ensures Valid() && instrs == old(instrs) + [Barrier]
    {
      Append(Barrier);
    }
  }
}
