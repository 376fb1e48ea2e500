/** Qubit layout and component instantiations.

    A qubit at line position x is carried by two rails: its input rail 2x and
    its output rail 2x+1. An output line instantiates one part on two port
    pairs, each port a rail index or the wildcard '~' (an open port), and is
    rendered as `<template> (<a>,<b>) (<a>,<b>)` followed by a line break. */
module Components {
  import opened Text
  import opened Parts

  function Abs(x: int): nat {
    if x < 0 then -x else x
  }

  function InputRail(x: int): int {
    2 * x
  }

  function OutputRail(x: int): int {
    2 * x + 1
  }

  datatype Port = Rail(index: int) | Open

  datatype PortPair = PortPair(left: Port, right: Port)

  datatype Component = Component(part: Part, first: PortPair, second: PortPair)

  /** Every translator writes the same port pair twice on a line. */
  function Doubled(part: Part, a: Port, b: Port): (c: Component)
    ensures c.part == part && c.first == c.second == PortPair(a, b)
  {
    Component(part, PortPair(a, b), PortPair(a, b))
  }

  function PortText(p: Port): string {
    match p
    case Rail(i) => IntToString(i)
    case Open => "~"
  }

  function PairText(pp: PortPair): string {
    "(" + PortText(pp.left) + "," + PortText(pp.right) + ")"
  }

  /** The text of a component line, without its line break. */
  function LineText(c: Component): string {
    Value(c.part) + " " + PairText(c.first) + " " + PairText(c.second)
  }

  /** A component line starts with its part's template and holds no line break. */
  lemma LineTextShape(c: Component)
    ensures Value(c.part) <= LineText(c)
    ensures '\n' !in LineText(c)
  {
    ValueStartsWithName(c.part);
    ValueSingleLine(c.part);
    PortTextShape(c.first.left);
    PortTextShape(c.first.right);
    PortTextShape(c.second.left);
    PortTextShape(c.second.right);
  }

  lemma PortTextShape(p: Port)
    ensures '\n' !in PortText(p)
  {
    if p.Rail? {
      IntToStringShape(p.index);
    }
  }

  /** A component line with its line break. */
  function Render(c: Component): string {
    LineText(c) + "\n"
  }

  function LineTexts(cs: seq<Component>): (ts: seq<string>)
    ensures |ts| == |cs|
  {
    seq(|cs|, i requires 0 <= i < |cs| => LineText(cs[i]))
  }

  lemma LineTextsShape(cs: seq<Component>)
    ensures NoNewlines(LineTexts(cs))
  {
    forall i | 0 <= i < |cs|
      ensures '\n' !in LineTexts(cs)[i]
    {
      LineTextShape(cs[i]);
    }
  }

  /** The rendered text of a sequence of component lines, in order. */
  function RenderAll(cs: seq<Component>): string {
    Lines(LineTexts(cs))
  }

  /** Rendered components read back as exactly one text line per component,
      in order, followed by nothing but the empty piece after the last break. */
  lemma RenderAllLines(cs: seq<Component>)
    ensures Split(RenderAll(cs)) == LineTexts(cs) + [""]
  {
    LineTextsShape(cs);
    SplitLines(LineTexts(cs));
  }

  /** Rendering distributes over concatenation: appending a component appends
      its rendered line. */
  lemma RenderAllAppend(a: seq<Component>, b: seq<Component>)
    ensures RenderAll(a + b) == RenderAll(a) + RenderAll(b)
  {
    var ts, ta, tb := LineTexts(a + b), LineTexts(a), LineTexts(b);
    forall i | 0 <= i < |a + b|
      ensures ts[i] == (ta + tb)[i]
    {
      if i < |a| {
        assert (a + b)[i] == a[i];
      } else {
        assert (a + b)[i] == b[i - |a|];
      }
    }
    assert ts == ta + tb;
    LinesAppend(LineTexts(a), LineTexts(b));
  }

  lemma RenderAllSingle(c: Component)
    ensures RenderAll([c]) == Render(c)
  {
    var ts := [LineText(c)];
    assert LineTexts([c]) == ts;
    assert ts[1..] == [];
    assert Lines(ts) == LineText(c) + "\n" + "";
  }

  /** Appending one component appends its rendered line. */
  lemma RenderAllSnoc(cs: seq<Component>, c: Component)
    ensures RenderAll(cs + [c]) == RenderAll(cs) + Render(c)
  {
    RenderAllAppend(cs, [c]);
    RenderAllSingle(c);
  }

  /** A rendering followed by one more line break reads back as its lines and
      two empty pieces. */
  lemma RenderAllThenBreak(cs: seq<Component>)
    ensures Split(RenderAll(cs) + "\n") == LineTexts(cs) + ["", ""]
  {
    var ts := LineTexts(cs);
    LinesAppend(ts, [""]);
    assert Lines([""]) == "\n";
    LineTextsShape(cs);
    NoNewlinesAppend(ts, [""]);
    SplitLines(ts + [""]);
  }

  /** One rendered component reads back as its one line and the empty piece. */
  lemma RenderLines(c: Component)
    ensures Split(Render(c)) == [LineText(c), ""]
  {
    RenderAllSingle(c);
    RenderAllLines([c]);
    assert LineTexts([c]) == [LineText(c)];
  }

  /** A rendered port is read back as the same port: distinct rails, and a
      rail and the wildcard, never render alike. */
  lemma PortTextInjective(p: Port, q: Port)
    ensures PortText(p) == PortText(q) ==> p == q
  {
    if p.Rail? && q.Rail? {
      IntToStringInjective(p.index, q.index);
    } else if p.Rail? && q.Open? {
      NumeralStart(p.index);
    } else if p.Open? && q.Rail? {
      NumeralStart(q.index);
    }
  }

  lemma NumeralStart(i: int)
    ensures IntToString(i)[0] != '~'
  {
    if i >= 0 {
      assert IsDigit(NatToString(i)[0]);
    }
  }

  /** The four ports a component line names, in the order they are written. */
  function Ports(c: Component): seq<Port> {
    [c.first.left, c.first.right, c.second.left, c.second.right]
  }

  /** Every rail the component names lies in lo..hi; wildcards are not rails. */
  predicate RailsWithin(c: Component, lo: int, hi: int) {
    forall p :: p in Ports(c) && p.Rail? ==> lo <= p.index <= hi
  }

  /** Every rail the component names is a valid (non-negative) rail index. */
  predicate RailsNonNegative(c: Component) {
    forall p :: p in Ports(c) && p.Rail? ==> p.index >= 0
  }
}
