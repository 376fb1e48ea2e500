# TQC photonic compiler — a Dafny model

TQC compiles a logical quantum circuit into a list of photonic components.
The circuit is a sequence of moments of CNOT, H and X gates on line qubits.
Qubit `x` is carried on two waveguide rails: input rail `2x` and output rail `2x+1`.
Every output line names a part template and two identical port pairs, e.g.
`directional_standard 5 20 0.4 15 (1,0) (1,0)`.
The program is a fixed prologue, the gate translations indented by four spaces, and a fixed epilogue.

The modules follow the repository's files:

- `Parts` (`parts.dfy`) models `cirq/ops/parts.py`: the six part templates.
- `Components` (`components.dfy`) holds the rail layout and the output-line record: a part, two port pairs, `~` for an open port.
  - It also renders lines to text.
- `GateBase` (`gate.dfy`) models `cirq/ops/gate.py`: the protocol selector and `Gate.swap`.
  - `Gate.swap` is an imperative `Swap` method whose loop emits the waveguide-crossing ladder.
  - It is proved against the specification function `Ladder`.
- `Gates` (`gates.dfy`) models `cirq/ops/gates.py`: the CNOT, H and X translators.
  - Each translator is a datatype holding only its protocol.
- `Circuit` (`circuit.dfy`) abstracts the circuit library's circuit as `seq<seq<Op>>`.
  - Each `Op` constructor stands for one printed prefix and gate type.
- `DeviceKLM` (`device_klm.dfy`) models `cirq/devices/device_KLM.py`: validation returning `Pass` or the first error.
- `Compiler` (`compiler.dfy`) models `cirq/compiler.py`: the compile loop over moments and operations, `__align` as an imperative `Align` method, the prologue and the epilogue.
- `Text` (`text.dfy`) models Python's `str()` of an integer and `str.split('\n')`, with their round trips.

Three behaviours of the code are easy to misread; the model follows the code:

- The prologue the code emits contains a bare `    _init` line before the `_init:` label (`Compiler.InitLines`).
- The CNOT body names rail `2c-1`, which is `-1` when the control is qubit 0, so rails are `int`, not `nat` (`Gates.CnotBodyRailsNonNegative`).
- `Gate.swap` compares the rail `2*low+3` with the position `upper+1`.
  - So `swap(1,3)` emits no crossing although the qubits are two positions apart (`GateBase.SwapOneThreeIsBlank`).
  - Operands given high-to-low are not reordered. When both positions are non-negative they emit only the final line break (`GateBase.SwapReversedIsBlank`, `Gates.CnotReversedApart`).

## Model

| member | source | states |
|---|---|---|
| Text.IntToStringShape | cirq/ops/gate.py:46-49 | `str()` of a rail index is a non-empty one-line numeral that starts with `-` exactly when the index is negative |
| Text.ParseIntToString | cirq/ops/gate.py:46-49 | reading the decimal text of any integer back gives that integer |
| Text.IntToStringInjective | cirq/ops/gates.py:47-48 | two rail indices render to the same text only when they are equal |
| Text.SplitPieces | cirq/compiler.py:167 | no piece of `split('\n')` contains a line break |
| Text.SplitCount | cirq/compiler.py:167 | `split('\n')` yields `count('\n') + 1` pieces |
| Text.JoinSplit | cirq/compiler.py:167 | joining the pieces of `split('\n')` with `'\n'` gives the text back |
| Parts.ValueStartsWithName | cirq/ops/parts.py:9-14 | every member's value begins with the member's own name |
| Parts.ValueSingleLine | cirq/ops/parts.py:9-14 | no member's value contains a line break |
| Parts.ValuesDistinct | cirq/ops/parts.py:9-14 | the six members have pairwise distinct values |
| Components.LineTextShape | cirq/ops/gate.py:50 | a component line starts with its part's template and holds no line break |
| Components.PortTextInjective | cirq/ops/gates.py:56-58 | distinct ports never render alike: no rail renders as the wildcard `~` |
| Components.RenderAllLines | cirq/ops/gate.py:50-55 | rendered components split back into exactly one line per component, in order, then the empty piece |
| Components.RenderAllAppend | cirq/ops/gate.py:50-55 | rendering a concatenation is the concatenation of the renderings |
| GateBase.Swap | cirq/ops/gate.py:24-60 | the loop's result is the rendered crossing ladder from `qubit1` under the fixed bound `qubit2`, followed by one extra line break |
| GateBase.StepAppended | cirq/ops/gate.py:50-55 | one iteration appends exactly four crossing lines, on `(i1,o)`, `(o,i)`, `(o1,i1)`, `(i1,o)` for `i=2low` … `o1=2low+3` |
| GateBase.StepFirstIsLast | cirq/ops/gate.py:50-55 | the first and the fourth line of each iteration are the same text |
| GateBase.StepCountMeaning | cirq/ops/gate.py:45-58 | step `k` runs exactly when the guard `2*(low+2k)+3 <= upper+1` holds, `low` growing by 2 per step |
| GateBase.LadderLength | cirq/ops/gate.py:45-58 | the ladder has 4 × (number of `k >= 0` meeting the guard) lines |
| GateBase.LadderStepAt | cirq/ops/gate.py:45-58 | the k-th group of four lines is the step at position `low + 2k` |
| GateBase.LadderShape | cirq/ops/gate.py:45-55 | every ladder line is a waveguide crossing writing its port pair twice, on rails between `2*qubit1` and `qubit2+1` |
| GateBase.SwapLines | cirq/ops/gate.py:45-60 | the swap text splits into the ladder's lines then two empty pieces: 4k+2 pieces in all |
| GateBase.SwapBlankIff | cirq/ops/gate.py:45-60 | the swap text is a bare `'\n'` if and only if the loop body never runs |
| GateBase.SwapReversedIsBlank | cirq/ops/gate.py:36-45 | with `0 <= qubit2 <= qubit1` the result is exactly `'\n'`; the operands are not reordered |
| GateBase.SwapZeroThree | cirq/ops/gate.py:45-60 | `swap(0,3)` is the crossings `(2,1)`, `(1,0)`, `(3,2)`, `(2,1)` and then `'\n'` |
| GateBase.SwapOneThreeIsBlank | cirq/ops/gate.py:45 | `swap(1,3)` emits no crossing: the guard compares a rail with a position |
| Circuit.FlattenAppend | cirq/compiler.py:88-89 | the operations of two circuits in moment order are the first's followed by the second's |
| Gates.CnotGate.Compile | cirq/ops/gates.py:16-68 | the CNOT text is the swap block's lines, the five body lines, then the same swap block's lines, for every protocol value |
| Gates.HGate.Compile | cirq/ops/gates.py:103-124 | the H text is exactly one line, the 50/50 coupler on the qubit's own rails, for every protocol value |
| Gates.XGate.Compile | cirq/ops/gates.py:137-158 | the X text is exactly one line, the crossing `(2x+1,2x)` of the qubit's own rails, for every protocol value |
| Gates.SwapIfApartCases | cirq/ops/gates.py:85-90 | the swap block is `''` when the operands are at most one position apart and `Gate.swap(c,t)` otherwise |
| Gates.SwapIfApartLines | cirq/ops/gates.py:85-90 | the swap block is the ladder's lines and a blank line when apart, nothing otherwise |
| Gates.HOneLine | cirq/ops/gates.py:111-124 | H on qubit x emits exactly one line: `directional_standard 5 20 0.4 15` then the pair `(2x+1,2x)` twice |
| Gates.XOneLine | cirq/ops/gates.py:145-158 | X on qubit x emits exactly one line: `waveguide_crossing` then the pair `(2x+1,2x)` twice |
| Gates.HOnQubitZero | cirq/ops/gates.py:119-124 | H on qubit 0 is `directional_standard 5 20 0.4 15 (1,0) (1,0)` and a line break |
| Gates.XOnQubitOne | cirq/ops/gates.py:152-158 | X on qubit 1 is `waveguide_crossing (3,2) (3,2)` and a line break |
| Gates.CnotBodyShape | cirq/ops/gates.py:46-63 | the body is five `directional_standard` lines, each writing its port pair twice; the first and fifth are the coupler on the target's rails |
| Gates.CnotBodyRailsNonNegative | cirq/ops/gates.py:51-58 | every rail of the body is non-negative exactly when the control is at position 1 or above and the target at 0 or above |
| Gates.CnotLineCount | cirq/ops/gates.py:23-68 | CNOT emits 5 lines when adjacent or equal, and 5 + 2 × (4k+1) otherwise |
| Gates.CnotAdjacent | cirq/ops/gates.py:38-66 | adjacent or equal operands give exactly the five body lines and no crossing |
| Gates.CnotReversedApart | cirq/ops/gates.py:85-90 | a control above a distant target gives a bare blank line around the body: nothing is reordered |
| Gates.CnotZeroThree | cirq/ops/gates.py:23-68 | CNOT(0,3) is the one-step ladder and a blank line, the body, then the same ladder and blank line |
| DeviceKLM.NewDevice | cirq/devices/device_KLM.py:16-23 | the device holds the positions `0 .. qubits_count-1` in order |
| DeviceKLM.Device.ValidateOperation | cirq/devices/device_KLM.py:25-42 | an operation passes if and only if it is a gate operation of a supported gate type whose two qubits, when it has two, are adjacent; an error carries the operation (see Left out for the unsupported-gate message) |
| DeviceKLM.ValidateOperationError | cirq/devices/device_KLM.py:26-42 | checks run in the order operation kind, gate type, adjacency; the first failing one decides the error |
| DeviceKLM.NoAdjacencyCheckBeyondPairs | cirq/devices/device_KLM.py:35 | supported operations on one qubit or on three or more are never rejected for adjacency |
| DeviceKLM.ValidateSeqFirstFailure | cirq/devices/device_KLM.py:46-47 | a moment passes if and only if every operation passes; otherwise the error is the first failing operation's |
| DeviceKLM.ValidateSeqAppend | cirq/devices/device_KLM.py:46-47 | validating two lists in a row reports the first list's error before the second's |
| DeviceKLM.ValidateCircuitFlat | cirq/devices/device_KLM.py:44-47 | validating a circuit is validating its operations in moment-then-operation order |
| DeviceKLM.ValidateCircuitIff | cirq/devices/device_KLM.py:44-47 | a circuit passes if and only if every operation of every moment passes |
| DeviceKLM.ValidateIgnoresQubits | cirq/devices/device_KLM.py:23-47 | the verdict does not depend on the device's qubit list |
| DeviceKLM.ValidateSeqIgnoresQubits | cirq/devices/device_KLM.py:25-47 | the verdict on one moment does not depend on the device's qubit list |
| DeviceKLM.OutOfRangeAccepted | cirq/devices/device_KLM.py:23-47 | H on position 7 passes on a two-qubit device |
| DeviceKLM.BellStateValid | cirq/devices/device_KLM.py:44-47 | H(0); CNOT(1,0); measure(0,1) passes |
| DeviceKLM.DistantCnotRejected | cirq/devices/device_KLM.py:35-42 | CNOT(0,2) raises the non-local interaction error naming that operation |
| Compiler.InitializeText | cirq/compiler.py:144-149 | the prologue is `'.text\n    _init\n\n    _init:\n        nop\n\n'` |
| Compiler.FinalizeText | cirq/compiler.py:151-156 | the epilogue is `'    _exit:\n        nop \n        ret\n'` |
| Compiler.FixedLines | cirq/compiler.py:144-156 | the prologue splits into its six lines and the epilogue into its three, each with a final empty piece |
| Compiler.Align | cirq/compiler.py:158-172 | the loop emits every `'\n'`-separated piece of the content behind four spaces and followed by a line break |
| Compiler.AlignedLines | cirq/compiler.py:167-172 | the aligned text has `count('\n') + 1` lines, the k-th being the k-th piece behind four spaces |
| Compiler.AlignedRoundTrip | cirq/compiler.py:167-172 | removing the four-space indentation from the aligned text gives the content back |
| Compiler.AlignedEmpty | cirq/compiler.py:167-172 | aligning `''` gives `'    \n'` |
| Compiler.TranslationsAppend | cirq/compiler.py:88-100 | the translations of two operation lists in a row are the first's followed by the second's |
| Compiler.BufferSnoc | cirq/compiler.py:92-102 | each operation appends its translation and then exactly one `'\n'` to the buffer |
| Compiler.Compiler.Compile | cirq/compiler.py:67-105 | the diagnostic is the device's verdict on the circuit, and compilation goes on after a failure; the program is the prologue, the aligned buffer and the epilogue |
| Compiler.UnsupportedContributesBreak | cirq/compiler.py:98-102 | an operation other than CNOT, H or X contributes only `'\n'` |
| Compiler.CircuitTextAppend | cirq/compiler.py:88-102 | the buffer of two circuits in a row is the first's followed by the second's: nothing is reordered or dropped |
| Compiler.AssembledLines | cirq/compiler.py:86-105 | any buffer, wrapped, reads as the six prologue lines, the buffer's lines indented, and the three epilogue lines |
| Compiler.ProgramLines | cirq/compiler.py:86-105 | the program's lines are the prologue, the circuit's buffer lines indented, and the epilogue, whatever the circuit |
| Compiler.EmptyCircuit | cirq/compiler.py:86-105 | the empty circuit gives the prologue, `'    \n'` and the epilogue |
| Compiler.SingleOperation | cirq/compiler.py:88-102 | a one-operation circuit's buffer is that operation's translation and one `'\n'` |
| Compiler.OneLineBuffer | cirq/compiler.py:98-102 | a one-line translation gives the buffer pieces: that line, then two empty pieces |
| Compiler.OneLineProgram | cirq/compiler.py:86-105 | such a program has the prologue, the line indented, two indented empty lines, and the epilogue |
| Compiler.CompileHadamard | cirq/compiler.py:94-95 | a circuit that is H on qubit x compiles to the prologue, the coupler line on rails `(2x+1,2x)` indented, two indented empty lines, and the epilogue |
| Compiler.CompilePauliX | cirq/compiler.py:96-97 | a circuit that is X on qubit x compiles to the prologue, the crossing line on rails `(2x+1,2x)` indented, two indented empty lines, and the epilogue |
| Compiler.CompileAdjacentCnot | cirq/compiler.py:92-93 | the buffer of a CNOT on adjacent qubits is exactly the five body lines and two empty pieces |
| Compiler.CompileDistantCnot | cirq/compiler.py:92-93 | the buffer of CNOT(0,3) is the one-step ladder, the body, the same ladder, and the operation's line break |

## Left out

- Writing the program to a file (`__export_circuit`) and the module-level driver: file I/O. `Compiler.Compile` returns the program text instead.
- The `print` calls in `compile` and `Gate.swap`: console output. A validation failure is returned as the diagnostic instead of printed.
- The empty hooks `__simulation`, `__optimization`, `__optimizer` and `__stabilizer`: they do nothing.
- `generate_circuit` and the example circuit builders: calls into the circuit library. The circuit is a parameter of `Compile`.
- The circuit library's types are replaced by the `Op` datatype, which has one constructor per printed prefix and gate type:
  - `Circuit`, `Moment`, `LineQubit`;
  - `str(operation)`;
  - the `isinstance` checks.
- The error messages' formatting of an operation: the errors name the operation as a value.
- `Gate_CNOT.__get_target`: it is never called.
- The abstract `Gate.compile`: it only raises `NotImplementedError`.
- `cirq/ops/protocol.py` is modelled by the one-constructor `GateBase.Protocol` datatype (`gate.dfy`); its member's string value `'KLM'` is not modelled, since nothing in the compiler reads it.
- DeviceKLM.Device.ValidateOperation: the unsupported-gate error `UnsupportedGate` carries the whole operation, where `cirq/devices/device_KLM.py:33` formats only `operation.gate` in its message; the operation's gate is not a separate value in this model.
