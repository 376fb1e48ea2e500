/** The KLM device (cirq/devices/device_KLM.py): the constraints a circuit must
    meet before it is compiled. An operation passes when it is a gate
    operation, its gate is of a supported type, and, when it acts on exactly
    two qubits, those qubits are adjacent. */
module DeviceKLM {
  import opened Components
  import opened Circuit

  /** The three errors validation raises, each naming the offending operation. */
  datatype ValidationError =
    /** "<operation> is not a supported operation" */
    | UnsupportedOperation(op: Op)
    /** "<gate> is not a supported gate" */
    | UnsupportedGate(op: Op)
    /** "Non-local interaction: <operation>" */
    | NonLocalInteraction(op: Op)

  datatype Outcome = Pass | Fail(error: ValidationError)

  predicate IsGateOperation(op: Op) {
    !op.NonGateOp?
  }

  /** Gate types the device accepts: the CX, X and H families and measurement. */
  predicate SupportedGate(op: Op) {
    op.CNot? || op.H? || op.X? || op.Power? || op.Measure?
  }

  /** The adjacency check, applied only to operations on exactly two qubits. */
  predicate LocalInteraction(op: Op) {
    |Qubits(op)| == 2 ==> Adjacent(Qubits(op)[0], Qubits(op)[1])
  }

  /** A device for qubits_count line qubits, at positions 0 .. qubits_count - 1. */
  function NewDevice(qubitsCount: int): (d: Device)
    ensures |d.qubits| == (if qubitsCount > 0 then qubitsCount else 0)
    ensures forall i :: 0 <= i < |d.qubits| ==> d.qubits[i] == i
  {
    Device(seq(if qubitsCount > 0 then qubitsCount else 0, i => i))
  }

  datatype Device = Device(qubits: seq<int>) {

    /** The guard chain: operation kind, then gate type, then adjacency; the
        first failing check decides the error. The qubit list is not consulted. */
    function ValidateOperation(op: Op): (r: Outcome)
      ensures r == Pass <==> IsGateOperation(op) && SupportedGate(op) && LocalInteraction(op)
      ensures r.Fail? ==> r.error.op == op
    {
      if !IsGateOperation(op) then Fail(UnsupportedOperation(op))
      else if !SupportedGate(op) then Fail(UnsupportedGate(op))
      else if |Qubits(op)| == 2 && !Adjacent(Qubits(op)[0], Qubits(op)[1]) then Fail(NonLocalInteraction(op))
      else Pass
    }

    /** The operations validated in order; the first failure is the result. */
    function ValidateSeq(ops: seq<Op>): Outcome {
      if ops == [] then Pass
      else if ValidateOperation(ops[0]).Fail? then ValidateOperation(ops[0])
      else ValidateSeq(ops[1..])
    }

    /** Every moment in order, every operation in order within it; the first
        failing operation's error is the result. */
    function ValidateCircuit(c: Circuit): Outcome {
      if c == [] then Pass
      else if ValidateCircuit(c[..|c| - 1]).Fail? then ValidateCircuit(c[..|c| - 1])
      else ValidateSeq(c[|c| - 1])
    }
  }

  /** Which error an operation draws, by the first check it fails. */
  lemma ValidateOperationError(d: Device, op: Op)
    ensures !IsGateOperation(op) ==> d.ValidateOperation(op) == Fail(UnsupportedOperation(op))
    ensures IsGateOperation(op) && !SupportedGate(op) ==> d.ValidateOperation(op) == Fail(UnsupportedGate(op))
    ensures IsGateOperation(op) && SupportedGate(op) && !LocalInteraction(op) ==>
      d.ValidateOperation(op) == Fail(NonLocalInteraction(op))
  {
  }

  /** Operations on one qubit or on three or more are never checked for adjacency. */
  lemma NoAdjacencyCheckBeyondPairs(d: Device, op: Op)
    requires IsGateOperation(op) && SupportedGate(op) && |Qubits(op)| != 2
    ensures d.ValidateOperation(op) == Pass
  {
  }

  /** The sequence passes exactly when every operation passes; otherwise its
      result is the error of the first operation that fails. */
  lemma {:induction false} ValidateSeqFirstFailure(d: Device, ops: seq<Op>)
    ensures d.ValidateSeq(ops) == Pass <==> forall k :: 0 <= k < |ops| ==> d.ValidateOperation(ops[k]) == Pass
    ensures d.ValidateSeq(ops).Fail? ==>
      exists k :: 0 <= k < |ops| && d.ValidateOperation(ops[k]) == d.ValidateSeq(ops)
        && forall j :: 0 <= j < k ==> d.ValidateOperation(ops[j]) == Pass
  {
    if ops != [] {
      ValidateSeqFirstFailure(d, ops[1..]);
      if d.ValidateOperation(ops[0]).Fail? {
        assert d.ValidateOperation(ops[0]) == d.ValidateSeq(ops);
      } else if d.ValidateSeq(ops[1..]).Fail? {
        var k :| 0 <= k < |ops[1..]| && d.ValidateOperation(ops[1..][k]) == d.ValidateSeq(ops[1..])
          && forall j :: 0 <= j < k ==> d.ValidateOperation(ops[1..][j]) == Pass;
        assert d.ValidateOperation(ops[k + 1]) == d.ValidateSeq(ops);
        assert forall j :: 0 <= j < k + 1 ==> d.ValidateOperation(ops[j]) == Pass by {
          forall j | 0 <= j < k + 1
            ensures d.ValidateOperation(ops[j]) == Pass
          {
            if j > 0 {
              assert ops[j] == ops[1..][j - 1];
            }
          }
        }
      } else {
        assert forall k :: 0 <= k < |ops| ==> d.ValidateOperation(ops[k]) == Pass by {
          forall k | 0 <= k < |ops|
            ensures d.ValidateOperation(ops[k]) == Pass
          {
            if k > 0 {
              assert ops[k] == ops[1..][k - 1];
            }
          }
        }
      }
    }
  }

  lemma {:induction false} ValidateSeqAppend(d: Device, a: seq<Op>, b: seq<Op>)
    ensures d.ValidateSeq(a + b) == if d.ValidateSeq(a).Fail? then d.ValidateSeq(a) else d.ValidateSeq(b)
  {
    if a == [] {
      assert a + b == b;
    } else {
      assert (a + b)[0] == a[0];
      assert (a + b)[1..] == a[1..] + b;
      ValidateSeqAppend(d, a[1..], b);
    }
  }

  /** Validating moment by moment is validating the flattened operation list:
      the error raised is the first in moment-then-operation order. */
  lemma {:induction false} ValidateCircuitFlat(d: Device, c: Circuit)
    ensures d.ValidateCircuit(c) == d.ValidateSeq(Flatten(c))
  {
    if c != [] {
      ValidateCircuitFlat(d, c[..|c| - 1]);
      ValidateSeqAppend(d, Flatten(c[..|c| - 1]), c[|c| - 1]);
    }
  }

  /** The circuit passes exactly when every operation of every moment passes. */
  lemma {:induction false} ValidateCircuitIff(d: Device, c: Circuit)
    ensures d.ValidateCircuit(c) == Pass <==>
      forall m, j :: 0 <= m < |c| && 0 <= j < |c[m]| ==> d.ValidateOperation(c[m][j]) == Pass
  {
    if c != [] {
      var n := |c| - 1;
      ValidateCircuitIff(d, c[..n]);
      ValidateSeqFirstFailure(d, c[n]);
      if d.ValidateCircuit(c) == Pass {
        forall m, j | 0 <= m < |c| && 0 <= j < |c[m]|
          ensures d.ValidateOperation(c[m][j]) == Pass
        {
          if m < n {
            assert c[m] == c[..n][m];
          }
        }
      } else if d.ValidateCircuit(c[..n]).Fail? {
        var m, j :| 0 <= m < n && 0 <= j < |c[..n][m]| && d.ValidateOperation(c[..n][m][j]) != Pass;
        assert c[m] == c[..n][m];
      }
    }
  }

  /** The result does not depend on the device's qubit list: a position outside
      0 .. qubits_count - 1 is never rejected for being out of range. */
  lemma {:induction false} ValidateIgnoresQubits(d1: Device, d2: Device, c: Circuit)
    ensures d1.ValidateCircuit(c) == d2.ValidateCircuit(c)
  {
    if c != [] {
      ValidateIgnoresQubits(d1, d2, c[..|c| - 1]);
      ValidateSeqIgnoresQubits(d1, d2, c[|c| - 1]);
    }
  }

  lemma {:induction false} ValidateSeqIgnoresQubits(d1: Device, d2: Device, ops: seq<Op>)
    ensures d1.ValidateSeq(ops) == d2.ValidateSeq(ops)
  {
    if ops != [] {
      ValidateSeqIgnoresQubits(d1, d2, ops[1..]);
    }
  }

  lemma OutOfRangeAccepted()
    ensures NewDevice(2).ValidateCircuit([[H(7)]]) == Pass
  {
    var c: Circuit := [[H(7)]];
    assert c[..0] == [];
  }

  /** The Bell-state circuit H(0); CNOT(1,0); measure(0,1) passes. */
  lemma BellStateValid()
    ensures NewDevice(2).ValidateCircuit([[H(0)], [CNot(1, 0)], [Measure([0, 1])]]) == Pass
  {
    var d := NewDevice(2);
    var c: Circuit := [[H(0)], [CNot(1, 0)], [Measure([0, 1])]];
    ValidateCircuitIff(d, c);
  }

  /** A CNOT across two positions raises the non-local interaction error. */
  lemma DistantCnotRejected()
    ensures NewDevice(3).ValidateCircuit([[H(0)], [CNot(0, 2)]]) == Fail(NonLocalInteraction(CNot(0, 2)))
  {
    var d := NewDevice(3);
    var c: Circuit := [[H(0)], [CNot(0, 2)]];
    assert c[..1] == [[H(0)]];
    assert c[..1][..0] == [];
  }
}
