/** The gate base (cirq/ops/gate.py): the protocol selector every gate holds,
    and the waveguide-crossing ladder that walks one qubit's rail pair
    upward, two line positions per step. */
module GateBase {
  import opened Text
  import opened Parts
  import opened Components

  /** The physical protocol a gate is lowered to (cirq/ops/protocol.py); KLM
      is the only member. */
  datatype Protocol = KLM

  /** A waveguide crossing with the port pair (a,b) written twice. */
  function Crossing(a: int, b: int): Component {
    Doubled(WaveguideCrossing, Rail(a), Rail(b))
  }

  /** The four crossings of one ladder step at line position low, on the rails
      i = 2low, o = 2low+1, i1 = 2low+2, o1 = 2low+3. */
  function Step(low: int): seq<Component> {
    var i, o, i1, o1 := 2 * low, 2 * low + 1, 2 * low + 2, 2 * low + 3;
    [Crossing(i1, o), Crossing(o, i), Crossing(o1, i1), Crossing(i1, o)]
  }

  /** The loop guard: the step's highest rail 2low+3 against upper+1. */
  predicate Continues(low: int, upper: int) {
    2 * low + 3 <= upper + 1
  }

  /** The crossings the ladder emits from line position low while the guard
      holds, upper staying fixed. */
  function Ladder(low: int, upper: int): seq<Component>
    decreases upper - 2 * low
  {
    if Continues(low, upper) then Step(low) + Ladder(low + 2, upper) else []
  }

  /** The number of ladder steps started from low: the number of k >= 0 with
      2 * (low + 2k) + 3 <= upper + 1. */
  function StepCount(low: int, upper: int): nat {
    if upper - 2 * low - 2 >= 0 then (upper - 2 * low - 2) / 4 + 1 else 0
  }

  /** The text Gate.swap returns: the rendered ladder and one extra line break. */
  function SwapText(qubit1: int, qubit2: int): string {
    RenderAll(Ladder(qubit1, qubit2)) + "\n"
  }

  /** Gate.swap: append four crossings per step, moving low up by 2, until the
      guard fails; then add one line break. The operands are not reordered. */
  method Swap(qubit1: int, qubit2: int) returns (content: string)
    ensures content == SwapText(qubit1, qubit2)
  {
    content := "";
    var low := qubit1;
    var upper := qubit2;
    ghost var done: seq<Component> := [];
    while 2 * low + 3 <= upper + 1
      invariant Ladder(qubit1, upper) == done + Ladder(low, upper)
      invariant content == RenderAll(done)
      decreases upper - 2 * low
    {
      var i, o, i1, o1 := 2 * low, 2 * low + 1, 2 * low + 2, 2 * low + 3;
      StepAppended(done, low);
      LadderAdvance(done, low, upper);
      content := content + Render(Crossing(i1, o));
      content := content + Render(Crossing(o, i));
      content := content + Render(Crossing(o1, i1));
      content := content + Render(Crossing(i1, o));
      done := done + Step(low);
      low := low + 2;
    }
    assert done == Ladder(qubit1, upper);
    content := content + "\n";
  }

  /** One loop iteration: rendering the lines done so far followed by the step
      at low appends the step's four crossings, in order. */
  lemma StepAppended(done: seq<Component>, low: int)
    ensures RenderAll(done + Step(low)) ==
      RenderAll(done) + Render(Crossing(2 * low + 2, 2 * low + 1)) + Render(Crossing(2 * low + 1, 2 * low))
      + Render(Crossing(2 * low + 3, 2 * low + 2)) + Render(Crossing(2 * low + 2, 2 * low + 1))
  {
    var s := Step(low);
    assert done + s == done + [s[0]] + [s[1]] + [s[2]] + [s[3]];
    RenderAllSnoc(done, s[0]);
    RenderAllSnoc(done + [s[0]], s[1]);
    RenderAllSnoc(done + [s[0]] + [s[1]], s[2]);
    RenderAllSnoc(done + [s[0]] + [s[1]] + [s[2]], s[3]);
  }

  /** One loop iteration moves one step from the pending ladder to the lines done. */
  lemma LadderAdvance(done: seq<Component>, low: int, upper: int)
    requires Continues(low, upper)
    ensures done + Ladder(low, upper) == (done + Step(low)) + Ladder(low + 2, upper)
  {
    assert Ladder(low, upper) == Step(low) + Ladder(low + 2, upper);
  }

  /** k counts a step exactly when the guard holds at low + 2k. */
  lemma StepCountMeaning(low: int, upper: int, k: nat)
    ensures k < StepCount(low, upper) <==> Continues(low + 2 * k, upper)
  {
  }

  /** Each step emits exactly four lines. */
  lemma {:induction false} LadderLength(low: int, upper: int)
    ensures |Ladder(low, upper)| == 4 * StepCount(low, upper)
    decreases upper - 2 * low
  {
    if Continues(low, upper) {
      LadderLength(low + 2, upper);
    }
  }

  /** The k-th group of four lines is the step at line position low + 2k. */
  lemma {:induction false} LadderStepAt(low: int, upper: int, k: nat)
    requires k < StepCount(low, upper)
    ensures 4 * k + 4 <= |Ladder(low, upper)|
    ensures Ladder(low, upper)[4 * k .. 4 * k + 4] == Step(low + 2 * k)
    decreases k
  {
    LadderLength(low, upper);
    StepCountMeaning(low, upper, 0);
    var rest := Ladder(low + 2, upper);
    assert Ladder(low, upper) == Step(low) + rest;
    if k > 0 {
      StepCountMeaning(low, upper, k);
      StepCountMeaning(low + 2, upper, k - 1);
      LadderStepAt(low + 2, upper, k - 1);
      assert Ladder(low, upper)[4 * k .. 4 * k + 4] == rest[4 * (k - 1) .. 4 * (k - 1) + 4];
    }
  }

  /** Every ladder line is a waveguide crossing that writes its port pair twice,
      on rails between 2 * low and upper + 1. */
  lemma {:induction false} LadderShape(low: int, upper: int)
    ensures forall c :: c in Ladder(low, upper) ==>
      c.part == WaveguideCrossing && c.first == c.second && RailsWithin(c, 2 * low, upper + 1)
    decreases upper - 2 * low
  {
    if Continues(low, upper) {
      LadderShape(low + 2, upper);
      forall c | c in Ladder(low, upper)
        ensures c.part == WaveguideCrossing && c.first == c.second && RailsWithin(c, 2 * low, upper + 1)
      {
        if c in Step(low) {
          assert RailsWithin(c, 2 * low, 2 * low + 3);
        } else {
          assert c in Ladder(low + 2, upper);
        }
      }
    }
  }

  /** Within a step the first and fourth crossings are the same line. */
  lemma StepFirstIsLast(low: int)
    ensures |Step(low)| == 4 && Step(low)[0] == Step(low)[3]
    ensures Render(Step(low)[0]) == Render(Step(low)[3])
  {
  }

  /** The swap text is a bare line break exactly when the loop body never runs. */
  lemma SwapBlankIff(qubit1: int, qubit2: int)
    ensures SwapText(qubit1, qubit2) == "\n" <==> !Continues(qubit1, qubit2)
  {
    if Continues(qubit1, qubit2) {
      var l := Ladder(qubit1, qubit2);
      assert l[0] in l;
      assert |RenderAll(l)| >= 1 by {
        RenderAllAppend([l[0]], l[1..]);
        assert [l[0]] + l[1..] == l;
        RenderAllSingle(l[0]);
      }
    }
  }

  /** Operands given in non-increasing order never start the loop. */
  lemma SwapReversedIsBlank(qubit1: int, qubit2: int)
    requires 0 <= qubit2 <= qubit1
    ensures SwapText(qubit1, qubit2) == "\n"
  {
  }

  /** The swap text reads as the ladder's lines, then two empty pieces: the
      extra line break leaves one blank line after the ladder. */
  lemma SwapLines(qubit1: int, qubit2: int)
    ensures Split(SwapText(qubit1, qubit2)) == LineTexts(Ladder(qubit1, qubit2)) + ["", ""]
    ensures |Split(SwapText(qubit1, qubit2))| == 4 * StepCount(qubit1, qubit2) + 2
  {
    RenderAllThenBreak(Ladder(qubit1, qubit2));
    LadderLength(qubit1, qubit2);
  }

  /** swap(0,3) emits one step: (2,1), (1,0), (3,2), (2,1), then a line break. */
  lemma SwapZeroThree()
    ensures SwapText(0, 3) ==
      RenderAll([Crossing(2, 1), Crossing(1, 0), Crossing(3, 2), Crossing(2, 1)]) + "\n"
  {
    assert Ladder(2, 3) == [];
    assert Ladder(0, 3) == Step(0);
  }

  /** The guard mixes rail and line units: qubits 1 and 3 are two positions
      apart, yet swap(1,3) emits no crossing. */
  lemma SwapOneThreeIsBlank()
    ensures SwapText(1, 3) == "\n"
  {
  }
}
