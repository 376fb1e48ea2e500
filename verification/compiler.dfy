/** The circuit compiler (cirq/compiler.py): validate the circuit against the
    device, translate every operation in moment-then-operation order, indent
    the translation by four spaces and wrap it in a fixed prologue and
    epilogue. */
module Compiler {
  import opened Text
  import opened Components
  import opened Circuit
  import opened GateBase
  import opened Gates
  import opened DeviceKLM

  /** The prologue's six lines: `.text`, a bare `_init` line, a blank line,
      the `_init:` label, a `nop` and a blank line. */
  function InitLines(): seq<string> {
    [".text", "    _init", "", "    _init:", "        nop", ""]
  }

  /** The epilogue's three lines: the `_exit:` label, a `nop ` (with a trailing
      space) and `ret`. */
  function ExitLines(): seq<string> {
    ["    _exit:", "        nop ", "        ret"]
  }

  /** The text __initialize returns: its six lines, each with its line break. */
  function Initialize(): string {
    Lines(InitLines())
  }

  /** The text __finalize returns: its three lines, each with its line break. */
  function Finalize(): string {
    Lines(ExitLines())
  }

  /** The prologue spelled out as one string. */
  lemma InitializeText()
    ensures Initialize() == ".text\n    _init\n\n    _init:\n        nop\n\n"
  {
  }

  /** The epilogue spelled out as one string. */
  lemma FinalizeText()
    ensures Finalize() == "    _exit:\n        nop \n        ret\n"
  {
  }

  /** The prologue's and the epilogue's lines hold no line break themselves. */
  lemma FixedLinesShape()
    ensures NoNewlines(InitLines())
    ensures NoNewlines(ExitLines())
  {
  }

  /** The prologue reads back as its six lines, the epilogue as its three. */
  lemma FixedLines()
    ensures Split(Initialize()) == InitLines() + [""]
    ensures Split(Finalize()) == ExitLines() + [""]
  {
    FixedLinesShape();
    SplitLines(InitLines());
    SplitLines(ExitLines());
  }

  /** Every piece behind four spaces. */
  function Indented(ps: seq<string>): (r: seq<string>)
    ensures |r| == |ps|
  {
    seq(|ps|, i requires 0 <= i < |ps| => "    " + ps[i])
  }

  lemma IndentedThree(a: string, b: string, c: string)
    ensures Indented([a, b, c]) == ["    " + a, "    " + b, "    " + c]
  {
  }

  /** Indenting adds no line break. */
  lemma IndentedShape(ps: seq<string>)
    requires NoNewlines(ps)
    ensures NoNewlines(Indented(ps))
  {
    forall i | 0 <= i < |ps|
      ensures '\n' !in Indented(ps)[i]
    {
      assert Indented(ps)[i] == "    " + ps[i];
    }
  }

  /** The text __align returns: every piece of content between line breaks,
      prefixed with four spaces and followed by a line break. */
  function Aligned(content: string): string {
    Lines(Indented(Split(content)))
  }

  /** __align: split content on line breaks and emit each piece indented. */
  method Align(content: string) returns (nc: string)
    ensures nc == Aligned(content)
  {
    var pieces := Split(content);
    nc := "";
    var k := 0;
    while k < |pieces|
      invariant 0 <= k <= |pieces|
      invariant nc == Lines(Indented(pieces[..k]))
    {
      assert Indented(pieces[..k + 1]) == Indented(pieces[..k]) + ["    " + pieces[k]];
      LinesSnoc(Indented(pieces[..k]), "    " + pieces[k]);
      nc := nc + ("    " + pieces[k] + "\n");
      k := k + 1;
    }
    assert pieces[..k] == pieces;
  }

  /** One line of text with the four-space indentation removed, if it has it. */
  function Unindent(line: string): string {
    if |line| >= 4 && line[..4] == "    " then line[4..] else line
  }

  /** The inverse of Aligned: unindent every line before the final break and
      join the lines again. */
  function Dedent(text: string): string {
    var ls := Split(text);
    if |ls| < 2 then "" else Join(seq(|ls| - 1, i requires 0 <= i < |ls| - 1 => Unindent(ls[i])))
  }

  /** The aligned text has one line per piece of content, each the piece behind
      four spaces, and a final line break: count('\n') + 1 lines in all. */
  lemma AlignedLines(content: string)
    ensures Split(Aligned(content)) == Indented(Split(content)) + [""]
    ensures |Split(Aligned(content))| == multiset(content)['\n'] + 2
    ensures forall k :: 0 <= k < |Split(content)| ==> Split(Aligned(content))[k] == "    " + Split(content)[k]
  {
    SplitPieces(content);
    SplitCount(content);
    IndentedShape(Split(content));
    SplitLines(Indented(Split(content)));
  }

  /** Alignment loses nothing: removing the indentation gives the content back. */
  lemma AlignedRoundTrip(content: string)
    ensures Dedent(Aligned(content)) == content
  {
    AlignedLines(content);
    var ps := Split(content);
    var ls := Split(Aligned(content));
    var un := seq(|ls| - 1, i requires 0 <= i < |ls| - 1 => Unindent(ls[i]));
    assert |un| == |ps|;
    assert Dedent(Aligned(content)) == Join(un);
    assert un == ps by {
      forall i | 0 <= i < |ps|
        ensures un[i] == ps[i]
      {
        UnindentIndented(ps[i]);
      }
    }
    JoinSplit(content);
  }

  lemma UnindentIndented(line: string)
    ensures Unindent("    " + line) == line
  {
    assert ("    " + line)[..4] == "    ";
    assert ("    " + line)[4..] == line;
  }

  /** Empty content still gives one indented empty line. */
  lemma AlignedEmpty()
    ensures Aligned("") == "    \n"
  {
    assert "    " + "" == "    ";
    assert Indented([""]) == ["    "];
    LinesCons("    ", []);
    assert ["    "] + [] == ["    "];
  }

  /** The translation of one operation, dispatched on its printed prefix:
      "CNOT(" to the CNOT gate on its two qubits, "H(" to H, "X(" to X, and
      nothing for every other operation. */
  function Translate(protocol: Protocol, op: Op): string {
    match op
    case CNot(c, t) => CnotGate(protocol).Compile(c, t)
    case H(q) => HGate(protocol).Compile(q)
    case X(q) => XGate(protocol).Compile(q)
    case _ => ""
  }

  /** The translations of the operations, in order. */
  function Translations(protocol: Protocol, ops: seq<Op>): (ts: seq<string>)
    ensures |ts| == |ops|
    decreases |ops|
  {
    if ops == [] then [] else Translations(protocol, ops[..|ops| - 1]) + [Translate(protocol, ops[|ops| - 1])]
  }

  /** The buffer cir_ops after the given operations: each one's translation
      followed by one line break. */
  function Buffer(protocol: Protocol, ops: seq<Op>): string {
    Lines(Translations(protocol, ops))
  }

  /** The buffer for a whole circuit, in moment-then-operation order. */
  function CircuitText(protocol: Protocol, c: Circuit): string {
    Buffer(protocol, Flatten(c))
  }

  /** The compiled program. */
  function Program(protocol: Protocol, c: Circuit): string {
    Initialize() + Aligned(CircuitText(protocol, c)) + Finalize()
  }

  lemma AppendAssociative<T>(a: seq<T>, b: seq<T>, c: seq<T>)
    ensures a + b + c == a + (b + c)
  {
  }

  lemma {:induction false} TranslationsAppend(protocol: Protocol, a: seq<Op>, b: seq<Op>)
    ensures Translations(protocol, a + b) == Translations(protocol, a) + Translations(protocol, b)
    decreases |b|
  {
    if b == [] {
      assert a + b == a;
    } else {
      var n := |b| - 1;
      assert (a + b)[..|a + b| - 1] == a + b[..n];
      TranslationsAppend(protocol, a, b[..n]);
      AppendAssociative(Translations(protocol, a), Translations(protocol, b[..n]), [Translate(protocol, b[n])]);
    }
  }

  /** One more operation appends its translation and then a line break. */
  lemma BufferSnoc(protocol: Protocol, ops: seq<Op>, op: Op)
    ensures Buffer(protocol, ops + [op]) == Buffer(protocol, ops) + Translate(protocol, op) + "\n"
  {
    assert (ops + [op])[..|ops|] == ops;
    LinesSnoc(Translations(protocol, ops), Translate(protocol, op));
  }

  /** Loop bookkeeping: the operations translated so far, in moment order. */
  lemma NoneTaken(before: seq<Op>, moment: seq<Op>)
    ensures before + moment[..0] == before
  {
    assert moment[..0] == [];
  }

  lemma TakeOne(before: seq<Op>, moment: seq<Op>, j: nat)
    requires j < |moment|
    ensures before + moment[..j] + [moment[j]] == before + moment[..j + 1]
  {
    assert moment[..j] + [moment[j]] == moment[..j + 1];
  }

  lemma MomentDone(circuit: Circuit, m: nat, j: nat)
    requires m < |circuit| && j == |circuit[m]|
    ensures Flatten(circuit[..m]) + circuit[m][..j] == Flatten(circuit[..m + 1])
  {
    assert circuit[m][..j] == circuit[m];
    FlattenPrefix(circuit, m);
  }

  lemma AllTaken(circuit: Circuit, m: nat)
    requires m == |circuit|
    ensures circuit[..m] == circuit
  {
  }

  datatype Compiler = Compiler(device: Device, protocol: Protocol) {

    /** Compiler.compile: validate (a failure is reported in diagnostic and
        compilation continues), translate every operation into the buffer,
        then assemble the program. */
    method Compile(circuit: Circuit) returns (diagnostic: Outcome, program: string)
      ensures diagnostic == device.ValidateCircuit(circuit)
      ensures program == Program(protocol, circuit)
    {
      diagnostic := device.ValidateCircuit(circuit);
      var cir := Initialize();
      var cirOps := "";
      ghost var done: seq<Op> := [];
      var m := 0;
      while m < |circuit|
        invariant 0 <= m <= |circuit|
        invariant done == Flatten(circuit[..m])
        invariant cirOps == Buffer(protocol, done)
      {
        var moment := circuit[m];
        var j := 0;
        NoneTaken(done, moment);
        while j < |moment|
          invariant 0 <= j <= |moment|
          invariant done == Flatten(circuit[..m]) + moment[..j]
          invariant cirOps == Buffer(protocol, done)
        {
          BufferSnoc(protocol, done, moment[j]);
          cirOps := cirOps + Translate(protocol, moment[j]);
          cirOps := cirOps + "\n";
          TakeOne(Flatten(circuit[..m]), moment, j);
          done := done + [moment[j]];
          j := j + 1;
        }
        MomentDone(circuit, m, j);
        m := m + 1;
      }
      AllTaken(circuit, m);
      var nc := Align(cirOps);
      cir := cir + nc;
      cir := cir + Finalize();
      program := cir;
    }
  }

  /** An unsupported operation (measurement, another gate, a non-gate
      operation, another power) contributes just one line break. */
  lemma UnsupportedContributesBreak(protocol: Protocol, ops: seq<Op>, op: Op)
    requires !op.CNot? && !op.H? && !op.X?
    ensures Buffer(protocol, ops + [op]) == Buffer(protocol, ops) + "\n"
  {
    BufferSnoc(protocol, ops, op);
  }

  /** Nothing is reordered or dropped: the buffer of two circuits run one after
      the other is the first's buffer followed by the second's. */
  lemma CircuitTextAppend(protocol: Protocol, a: Circuit, b: Circuit)
    ensures CircuitText(protocol, a + b) == CircuitText(protocol, a) + CircuitText(protocol, b)
  {
    FlattenAppend(a, b);
    TranslationsAppend(protocol, Flatten(a), Flatten(b));
    LinesAppend(Translations(protocol, Flatten(a)), Translations(protocol, Flatten(b)));
  }

  /** Any buffer, aligned and wrapped: the six prologue lines, the buffer's lines
      each behind four spaces, the three epilogue lines, and the empty piece
      after the final line break. */
  lemma AssembledLines(body: string)
    ensures Split(Initialize() + Aligned(body) + Finalize()) ==
      InitLines() + Indented(Split(body)) + ExitLines() + [""]
  {
    var pro, ind, epi := InitLines(), Indented(Split(body)), ExitLines();
    FixedLinesShape();
    SplitPieces(body);
    IndentedShape(Split(body));
    LinesAppend(pro, ind);
    LinesAppend(pro + ind, epi);
    NoNewlinesAppend(pro, ind);
    NoNewlinesAppend(pro + ind, epi);
    SplitLines(pro + ind + epi);
  }

  /** The program's lines: prologue, the circuit's buffer lines indented, epilogue. */
  lemma ProgramLines(protocol: Protocol, c: Circuit)
    ensures Split(Program(protocol, c)) ==
      InitLines() + Indented(Split(CircuitText(protocol, c))) + ExitLines() + [""]
  {
    AssembledLines(CircuitText(protocol, c));
  }

  /** The empty circuit still gets the prologue, one indented empty line and
      the epilogue. */
  lemma EmptyCircuit(protocol: Protocol)
    ensures Program(protocol, []) == Initialize() + "    \n" + Finalize()
  {
    AlignedEmpty();
  }

  /** A circuit of one operation: its translation and one line break. */
  lemma SingleOperation(protocol: Protocol, op: Op)
    ensures CircuitText(protocol, [[op]]) == Translate(protocol, op) + "\n"
  {
    var c: Circuit := [[op]];
    assert c[..0] == [];
    assert Flatten(c) == [] + [op];
    BufferSnoc(protocol, [], op);
  }

  /** A translation that is one line gives the buffer lines: that line, the
      empty piece the operation's own break leaves, and the final empty piece. */
  lemma OneLineBuffer(protocol: Protocol, op: Op, line: string)
    requires Split(Translate(protocol, op)) == [line, ""]
    ensures Split(CircuitText(protocol, [[op]])) == [line, "", ""]
  {
    SingleOperation(protocol, op);
    SplitThenBreak(Translate(protocol, op));
  }

  /** A program that is one operation with a one-line translation: the prologue,
      that line indented, two indented empty lines, and the epilogue. */
  lemma OneLineProgram(protocol: Protocol, op: Op, line: string)
    requires Split(Translate(protocol, op)) == [line, ""]
    ensures Split(Program(protocol, [[op]])) ==
      InitLines() + ["    " + line, "    ", "    "] + ExitLines() + [""]
  {
    OneLineBuffer(protocol, op, line);
    ProgramLines(protocol, [[op]]);
    IndentedThree(line, "", "");
    assert "    " + "" == "    ";
  }

  /** H on qubit x: the program's only component line is the coupler on the
      qubit's rails, followed by two indented empty lines. */
  lemma CompileHadamard(protocol: Protocol, x: int)
    ensures Split(Program(protocol, [[H(x)]])) ==
      InitLines() + ["    " + LineText(QubitCoupler(x)), "    ", "    "] + ExitLines() + [""]
  {
    assert Split(Translate(protocol, H(x))) == [LineText(QubitCoupler(x)), ""];
    OneLineProgram(protocol, H(x), LineText(QubitCoupler(x)));
  }

  /** X on qubit x: the program's only component line is the crossing of the
      qubit's rails, followed by two indented empty lines. */
  lemma CompilePauliX(protocol: Protocol, x: int)
    ensures Split(Program(protocol, [[X(x)]])) ==
      InitLines() + ["    " + LineText(Crossing(2 * x + 1, 2 * x)), "    ", "    "] + ExitLines() + [""]
  {
    assert Split(Translate(protocol, X(x))) == [LineText(Crossing(2 * x + 1, 2 * x)), ""];
    OneLineProgram(protocol, X(x), LineText(Crossing(2 * x + 1, 2 * x)));
  }

  /** A CNOT on adjacent qubits: the buffer is the five coupler lines, none of
      them a crossing, then the two empty pieces. */
  lemma CompileAdjacentCnot(protocol: Protocol, c: int, t: int)
    requires Abs(t - c) <= 1
    ensures Split(CircuitText(protocol, [[CNot(c, t)]])) == LineTexts(CnotBody(c, t)) + ["", ""]
  {
    SingleOperation(protocol, CNot(c, t));
    CnotAdjacent(protocol, c, t);
    RenderAllThenBreak(CnotBody(c, t));
  }

  /** CNOT from qubit 0 to qubit 3: a one-step crossing ladder and a blank line,
      the five body lines, the same ladder and blank line, then the break. */
  lemma CompileDistantCnot(protocol: Protocol)
    ensures var s := RenderAll([Crossing(2, 1), Crossing(1, 0), Crossing(3, 2), Crossing(2, 1)]) + "\n";
      CircuitText(protocol, [[CNot(0, 3)]]) == s + RenderAll(CnotBody(0, 3)) + s + "\n"
  {
    SingleOperation(protocol, CNot(0, 3));
    CnotZeroThree(protocol);
  }
}
