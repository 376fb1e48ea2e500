/** The catalogue of photonic part templates (cirq/ops/parts.py). Each member
    of the enumeration carries the template text that starts an output line. */
module Parts {

  datatype Part =
    | DirectionalStandard
    | DirectionalHeated
    | HResonator
    | HDirectional
    | WaveguideSspd
    | WaveguideCrossing

  /** The enumeration member's own name, as written in the source. */
  function Name(p: Part): string {
    match p
    case DirectionalStandard => "directional_standard"
    case DirectionalHeated => "directional_heated"
    case HResonator => "hresonator"
    case HDirectional => "hdirectional"
    case WaveguideSspd => "waveguide_sspd"
    case WaveguideCrossing => "waveguide_crossing"
  }

  /** The member's value: the template text emitted for the part. */
  function Value(p: Part): string {
    match p
    case DirectionalStandard => "directional_standard 5 20 0.4 15"
    case DirectionalHeated => "directional_heated 5 20 0.4 15"
    case HResonator => "hresonator"
    case HDirectional => "hdirectional"
    case WaveguideSspd => "waveguide_sspd"
    case WaveguideCrossing => "waveguide_crossing"
  }

  /** Every value begins with the member's own name: the two couplers append
      their four numeric parameters, the other values are the name alone. */
  lemma ValueStartsWithName(p: Part)
    ensures Name(p) <= Value(p)
  {
    match p
    case DirectionalStandard =>
      assert Value(p) == Name(p) + " 5 20 0.4 15";
      PrefixOfAppend(Name(p), " 5 20 0.4 15");
    case DirectionalHeated =>
      assert Value(p) == Name(p) + " 5 20 0.4 15";
      PrefixOfAppend(Name(p), " 5 20 0.4 15");
    case HResonator =>
    case HDirectional =>
    case WaveguideSspd =>
    case WaveguideCrossing =>
  }

  lemma PrefixOfAppend(a: string, b: string)
    ensures a <= a + b
  {
    assert (a + b)[..|a|] == a;
  }

  /** Every value fits on one output line. */
  lemma ValueSingleLine(p: Part)
    ensures '\n' !in Value(p)
  {
    match p
    case DirectionalStandard =>
    case DirectionalHeated =>
    case HResonator =>
    case HDirectional =>
    case WaveguideSspd =>
    case WaveguideCrossing =>
  }

  /** The six members have pairwise distinct values. */
  lemma ValuesDistinct(p: Part, q: Part)
    ensures Value(p) == Value(q) ==> p == q
  {
    if Value(p) == Value(q) {
      assert |Value(p)| == |Value(q)|;
      assert Value(p)[1] == Value(q)[1];
      assert Value(p)[|Value(p)| - 1] == Value(q)[|Value(q)| - 1];
    }
  }
}
