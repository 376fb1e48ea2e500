/** The logical circuit the compiler consumes: an ordered sequence of moments,
    each an ordered sequence of operations on line qubits, named by their
    integer positions. Each constructor of Op stands for one way the circuit
    library presents an operation: its printed form and its gate type. */
module Circuit {
  import opened Components

  /** The gate families the device accepts beside the plain gates. */
  datatype PowFamily = CXFamily | XFamily | HFamily

  datatype Op =
    /** A controlled-NOT, printed "CNOT(...)"; always two qubits. */
    | CNot(control: int, target: int)
    /** A Hadamard gate, printed "H(...)". */
    | H(qubit: int)
    /** A Pauli-X gate, printed "X(...)". */
    | X(qubit: int)
    /** Any other power of the CX, X or H gate, e.g. X**0.5: a supported gate
        type whose printed form starts with none of "CNOT(", "H(", "X(". */
    | Power(family: PowFamily, qubits: seq<int>)
    /** A measurement gate on its qubits. */
    | Measure(qubits: seq<int>)
    /** A gate operation whose gate is of any other type. */
    | OtherGate(qubits: seq<int>)
    /** An operation that is not a gate operation at all. */
    | NonGateOp(qubits: seq<int>)

  type Moment = seq<Op>

  type Circuit = seq<Moment>

  /** The operation's qubit positions, in their given order. */
  function Qubits(op: Op): seq<int> {
    match op
    case CNot(c, t) => [c, t]
    case H(q) => [q]
    case X(q) => [q]
    case Power(_, qs) => qs
    case Measure(qs) => qs
    case OtherGate(qs) => qs
    case NonGateOp(qs) => qs
  }

  /** Two line qubits are adjacent when their positions differ by one. */
  predicate Adjacent(a: int, b: int) {
    Abs(a - b) == 1
  }

  /** All operations in moment order, then in operation order within a moment. */
  function Flatten(c: Circuit): seq<Op> {
    if c == [] then [] else Flatten(c[..|c| - 1]) + c[|c| - 1]
  }

  lemma {:induction false} FlattenAppend(a: Circuit, b: Circuit)
    ensures Flatten(a + b) == Flatten(a) + Flatten(b)
    decreases |b|
  {
    if b == [] {
      assert a + b == a;
    } else {
      var n := |b| - 1;
      assert (a + b)[..|a + b| - 1] == a + b[..n];
      FlattenAppend(a, b[..n]);
    }
  }

  /** Taking one more moment appends that moment's operations. */
  lemma FlattenPrefix(c: Circuit, m: nat)
    requires m < |c|
    ensures Flatten(c[..m + 1]) == Flatten(c[..m]) + c[m]
  {
    assert c[..m + 1][..m] == c[..m];
  }
}
