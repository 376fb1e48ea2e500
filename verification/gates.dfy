/** The gate translators (cirq/ops/gates.py). Each gate holds only its
    protocol; compiling it lowers its qubit operands to component lines. */
module Gates {
  import opened Text
  import opened Parts
  import opened Components
  import opened GateBase

  /** A standard directional coupler with the port pair (a,b) written twice. */
  function Coupler(a: Port, b: Port): Component {
    Doubled(DirectionalStandard, a, b)
  }

  /** The 50/50 coupler on a qubit's own rails, output rail first. */
  function QubitCoupler(x: int): Component {
    Coupler(Rail(OutputRail(x)), Rail(InputRail(x)))
  }

  datatype CnotGate = CnotGate(protocol: Protocol) {
    /** The KLM CNOT reads as the swap block's lines (the ladder and a blank
        line when the operands are apart), the five body lines, then the
        identical swap block's lines. */
    function Compile(qubitC: int, qubitT: int): (r: string)
      ensures Split(r) ==
        SwapBlockLines(qubitC, qubitT) + LineTexts(CnotBody(qubitC, qubitT)) + SwapBlockLines(qubitC, qubitT) + [""]
    {
      var s := SwapBlockLines(qubitC, qubitT);
      var b := LineTexts(CnotBody(qubitC, qubitT));
      SwapIfApartLines(qubitC, qubitT);
      LinesAppend(s, b);
      LinesAppend(s + b, s);
      assert CnotKlm(qubitC, qubitT) == Lines(s + b + s);
      LineTextsShape(CnotBody(qubitC, qubitT));
      NoNewlinesAppend(s, b);
      NoNewlinesAppend(s + b, s);
      SplitLines(s + b + s);
      match protocol
      case KLM => CnotKlm(qubitC, qubitT)
    }
  }

  datatype HGate = HGate(protocol: Protocol) {
    /** The KLM Hadamard is exactly one line: the 50/50 coupler on the
        qubit's own rails. */
    function Compile(qubitT: int): (r: string)
      ensures Split(r) == [LineText(QubitCoupler(qubitT)), ""]
    {
      RenderLines(QubitCoupler(qubitT));
      match protocol
      case KLM => HKlm(qubitT)
    }
  }

  datatype XGate = XGate(protocol: Protocol) {
    /** The KLM Pauli-X is exactly one line: the crossing of the qubit's own
        two rails, output rail first. */
    function Compile(qubitT: int): (r: string)
      ensures Split(r) == [LineText(Crossing(2 * qubitT + 1, 2 * qubitT)), ""]
    {
      RenderLines(Crossing(OutputRail(qubitT), InputRail(qubitT)));
      match protocol
      case KLM => XKlm(qubitT)
    }
  }

  /** The crossing ladder, used only when the operands are more than one
      position apart. */
  function SwapIfApart(qubitC: int, qubitT: int): string {
    if Abs(qubitT - qubitC) > 1 then SwapText(qubitC, qubitT) else ""
  }

  /** The five couplers of the KLM CNOT: a 50/50 coupler on the target's rails,
      three 67/33 couplers on (~,2c+1), (2c,2c-1) and (2t,~), and the 50/50
      coupler on the target's rails again. */
  function CnotBody(c: int, t: int): seq<Component> {
    [ QubitCoupler(t),
      Coupler(Open, Rail(2 * c + 1)),
      Coupler(Rail(2 * c), Rail(2 * c - 1)),
      Coupler(Rail(2 * t), Open),
      QubitCoupler(t) ]
  }

  /** The KLM CNOT: the swap block, the body, then the same swap block. */
  function CnotKlm(qubitC: int, qubitT: int): string {
    var s := SwapIfApart(qubitC, qubitT);
    s + RenderAll(CnotBody(qubitC, qubitT)) + s
  }

  /** The KLM Hadamard: one 50/50 coupler on the qubit's rails. */
  function HKlm(qubitT: int): string {
    Render(QubitCoupler(qubitT))
  }

  /** The KLM Pauli-X: one crossing of the qubit's own two rails. */
  function XKlm(qubitT: int): string {
    Render(Crossing(OutputRail(qubitT), InputRail(qubitT)))
  }

  /** The swap block is empty for adjacent or equal operands and is the full
      swap text otherwise. */
  lemma SwapIfApartCases(qubitC: int, qubitT: int)
    ensures Abs(qubitT - qubitC) <= 1 ==> SwapIfApart(qubitC, qubitT) == ""
    ensures Abs(qubitT - qubitC) > 1 ==> SwapIfApart(qubitC, qubitT) == SwapText(qubitC, qubitT)
  {
  }

  /** H emits exactly one line: the `directional_standard` template, then the
      pair (2x+1,2x) twice. */
  lemma HOneLine(p: Protocol, x: int)
    ensures var pair := PairText(PortPair(Rail(2 * x + 1), Rail(2 * x)));
      Split(HGate(p).Compile(x)) == ["directional_standard 5 20 0.4 15" + " " + pair + " " + pair, ""]
  {
    assert QubitCoupler(x) == Component(DirectionalStandard, PortPair(Rail(2 * x + 1), Rail(2 * x)),
      PortPair(Rail(2 * x + 1), Rail(2 * x)));
  }

  /** X emits exactly one line: the `waveguide_crossing` template, then the
      pair (2x+1,2x) twice. */
  lemma XOneLine(p: Protocol, x: int)
    ensures var pair := PairText(PortPair(Rail(2 * x + 1), Rail(2 * x)));
      Split(XGate(p).Compile(x)) == ["waveguide_crossing" + " " + pair + " " + pair, ""]
  {
    assert Crossing(2 * x + 1, 2 * x) == Component(WaveguideCrossing, PortPair(Rail(2 * x + 1), Rail(2 * x)),
      PortPair(Rail(2 * x + 1), Rail(2 * x)));
  }

  /** H on qubit 0 is the line `directional_standard 5 20 0.4 15 (1,0) (1,0)`. */
  lemma HOnQubitZero(p: Protocol)
    ensures HGate(p).Compile(0) == "directional_standard 5 20 0.4 15 (1,0) (1,0)\n"
  {
    HKlmZero();
    assert HGate(p).Compile(0) == HKlm(0);
  }

  lemma HKlmZero()
    ensures HKlm(0) == "directional_standard 5 20 0.4 15 (1,0) (1,0)\n"
  {
    assert IntToString(1) == "1" && IntToString(0) == "0";
    var pair := PairText(PortPair(Rail(1), Rail(0)));
    assert pair == "(1,0)";
    assert LineText(QubitCoupler(0)) == Value(DirectionalStandard) + " " + pair + " " + pair;
  }

  /** X on qubit 1 is the line `waveguide_crossing (3,2) (3,2)`. */
  lemma XOnQubitOne(p: Protocol)
    ensures XGate(p).Compile(1) == "waveguide_crossing (3,2) (3,2)\n"
  {
    XKlmOne();
    assert XGate(p).Compile(1) == XKlm(1);
  }

  lemma XKlmOne()
    ensures XKlm(1) == "waveguide_crossing (3,2) (3,2)\n"
  {
    assert IntToString(3) == "3" && IntToString(2) == "2";
    var pair := PairText(PortPair(Rail(3), Rail(2)));
    assert pair == "(3,2)";
    assert LineText(Crossing(3, 2)) == Value(WaveguideCrossing) + " " + pair + " " + pair;
  }

  /** The body is five standard couplers, each writing its port pair twice;
      the first and the fifth are the same coupler on the target's rails. */
  lemma CnotBodyShape(c: int, t: int)
    ensures |CnotBody(c, t)| == 5
    ensures forall k :: 0 <= k < 5 ==>
      CnotBody(c, t)[k].part == DirectionalStandard && CnotBody(c, t)[k].first == CnotBody(c, t)[k].second
    ensures CnotBody(c, t)[0] == CnotBody(c, t)[4] == QubitCoupler(t)
  {
  }

  /** Every rail of the body is non-negative exactly when the control is at
      position 1 or above and the target at 0 or above: with the control at
      position 0 the middle coupler names rail -1. */
  lemma CnotBodyRailsNonNegative(c: int, t: int)
    ensures (forall k :: 0 <= k < 5 ==> RailsNonNegative(CnotBody(c, t)[k])) <==> (c >= 1 && t >= 0)
  {
    var b := CnotBody(c, t);
    if c >= 1 && t >= 0 {
      forall k | 0 <= k < 5
        ensures RailsNonNegative(b[k])
      {
      }
    } else if c < 1 {
      assert 2 * c - 1 < 0 && Rail(2 * c - 1) in Ports(b[2]);
    } else {
      assert 2 * t < 0 && Rail(2 * t) in Ports(b[3]);
    }
  }

  /** The lines of a swap block: the ladder's lines and one blank line when
      the operands are apart, none otherwise. */
  function SwapBlockLines(qubitC: int, qubitT: int): seq<string> {
    if Abs(qubitT - qubitC) > 1 then LineTexts(Ladder(qubitC, qubitT)) + [""] else []
  }

  lemma SwapIfApartLines(qubitC: int, qubitT: int)
    ensures SwapIfApart(qubitC, qubitT) == Lines(SwapBlockLines(qubitC, qubitT))
    ensures NoNewlines(SwapBlockLines(qubitC, qubitT))
  {
    if Abs(qubitT - qubitC) > 1 {
      LinesAppend(LineTexts(Ladder(qubitC, qubitT)), [""]);
      assert Lines([""]) == "\n";
      LineTextsShape(Ladder(qubitC, qubitT));
      NoNewlinesAppend(LineTexts(Ladder(qubitC, qubitT)), [""]);
    }
  }

  /** The CNOT text has 5 lines when the operands are adjacent or equal, and
      5 plus twice the swap block's 4k + 1 lines otherwise, k being the number
      of ladder steps. */
  lemma CnotLineCount(p: Protocol, c: int, t: int)
    ensures |Split(CnotGate(p).Compile(c, t))| - 1 ==
      5 + (if Abs(t - c) > 1 then 2 * (4 * StepCount(c, t) + 1) else 0)
  {
    LadderLength(c, t);
  }

  /** Adjacent or equal operands: exactly the five body lines and no crossing. */
  lemma CnotAdjacent(p: Protocol, c: int, t: int)
    requires Abs(t - c) <= 1
    ensures CnotGate(p).Compile(c, t) == RenderAll(CnotBody(c, t))
    ensures |Split(CnotGate(p).Compile(c, t))| == 6
    ensures forall k :: 0 <= k < |CnotBody(c, t)| ==> CnotBody(c, t)[k].part != WaveguideCrossing
  {
    var b := CnotBody(c, t);
    SwapIfApartCases(c, t);
    assert CnotKlm(c, t) == "" + RenderAll(b) + "";
    assert "" + RenderAll(b) + "" == RenderAll(b);
    RenderAllLines(b);
    assert |LineTexts(b) + [""]| == 6;
    CnotBodyShape(c, t);
  }

  /** A control above a distant target: the ladder never runs and each swap
      block is a bare blank line; the operands are not reordered. */
  lemma CnotReversedApart(p: Protocol, c: int, t: int)
    requires 0 <= t && t + 1 < c
    ensures CnotGate(p).Compile(c, t) == "\n" + RenderAll(CnotBody(c, t)) + "\n"
  {
    SwapReversedIsBlank(c, t);
  }

  /** CNOT(0,3): the one-step ladder and a blank line before and after the body. */
  lemma CnotZeroThree(p: Protocol)
    ensures var s := RenderAll([Crossing(2, 1), Crossing(1, 0), Crossing(3, 2), Crossing(2, 1)]) + "\n";
      CnotGate(p).Compile(0, 3) == s + RenderAll(CnotBody(0, 3)) + s
  {
    SwapZeroThree();
  }
}
