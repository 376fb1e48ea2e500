/** Text helpers shared by the compiler model: the decimal rendering of
    integers that Python's str() performs, and the line structure of a
    string as Python's str.split('\n') sees it. */
module Text {

  predicate IsDigit(c: char) {
    '0' <= c <= '9'
  }

  /** True when no piece contains a line break. */
  predicate NoNewlines(ps: seq<string>) {
    forall i :: 0 <= i < |ps| ==> '\n' !in ps[i]
  }

  lemma NoNewlinesAppend(a: seq<string>, b: seq<string>)
    requires NoNewlines(a) && NoNewlines(b)
    ensures NoNewlines(a + b)
  {
    forall i | 0 <= i < |a + b|
      ensures '\n' !in (a + b)[i]
    {
      if i < |a| {
        assert (a + b)[i] == a[i];
      } else {
        assert (a + b)[i] == b[i - |a|];
      }
    }
  }

  function DigitChar(d: nat): (c: char)
    requires d < 10
    ensures IsDigit(c)
  {
    (('0' as int) + d) as char
  }

  function DigitValue(c: char): (d: nat)
    ensures d < 10
  {
    if IsDigit(c) then (c as int) - ('0' as int) else 0
  }

  /** Decimal digits of a natural number, most significant first. */
  function NatToString(n: nat): (s: string)
    ensures |s| >= 1
    ensures forall i :: 0 <= i < |s| ==> IsDigit(s[i])
    decreases n
  {
    if n < 10 then [DigitChar(n)] else NatToString(n / 10) + [DigitChar(n % 10)]
  }

  /** Python's str() of an int: a '-' for negative values, then the digits. */
  function IntToString(i: int): string {
    if i < 0 then "-" + NatToString(-i) else NatToString(i)
  }

  /** A rendered integer is a non-empty single-line numeral that starts with
      '-' exactly when the integer is negative. */
  lemma IntToStringShape(i: int)
    ensures |IntToString(i)| >= 1 && '\n' !in IntToString(i)
    ensures (IntToString(i)[0] == '-') <==> i < 0
  {
    if i >= 0 {
      assert IsDigit(NatToString(i)[0]);
    }
  }

  function ParseNat(s: string): nat {
    if s == [] then 0 else ParseNat(s[..|s| - 1]) * 10 + DigitValue(s[|s| - 1])
  }

  /** The reading of a decimal numeral back into an int. */
  function ParseInt(s: string): int {
    if |s| > 0 && s[0] == '-' then -(ParseNat(s[1..]) as int) else ParseNat(s)
  }

  lemma {:induction false} ParseNatToString(n: nat)
    ensures ParseNat(NatToString(n)) == n
  {
    if n >= 10 {
      var s := NatToString(n);
      assert s[..|s| - 1] == NatToString(n / 10);
      ParseNatToString(n / 10);
    }
  }

  /** Rendering an integer loses nothing: parsing gives it back. */
  lemma ParseIntToString(i: int)
    ensures ParseInt(IntToString(i)) == i
  {
    if i < 0 {
      ParseNatToString(-i);
      assert IntToString(i)[1..] == NatToString(-i);
    } else {
      ParseNatToString(i);
    }
  }

  /** Two rails render to the same text only when they are the same rail. */
  lemma IntToStringInjective(a: int, b: int)
    ensures IntToString(a) == IntToString(b) ==> a == b
  {
    ParseIntToString(a);
    ParseIntToString(b);
  }

  /** The pieces of s between line breaks, as Python's s.split('\n'):
      "" splits to [""], and a trailing break yields a last empty piece. */
  function Split(s: string): (r: seq<string>)
    ensures |r| >= 1
    decreases |s|
  {
    if s == [] then [""]
    else if s[0] == '\n' then [""] + Split(s[1..])
    else
      var rest := Split(s[1..]);
      [[s[0]] + rest[0]] + rest[1..]
  }

  /** Pieces glued with a line break between each two, as '\n'.join(ps). */
  function Join(ps: seq<string>): string
    requires |ps| >= 1
  {
    if |ps| == 1 then ps[0] else ps[0] + "\n" + Join(ps[1..])
  }

  /** Every piece followed by its own line break. */
  function Lines(ps: seq<string>): string {
    if ps == [] then "" else ps[0] + "\n" + Lines(ps[1..])
  }

  lemma {:induction false} SplitPieces(s: string)
    ensures NoNewlines(Split(s))
    decreases |s|
  {
    if s != [] {
      SplitPieces(s[1..]);
    }
  }

  /** Splitting loses nothing: joining the pieces gives the string back. */
  lemma {:induction false} JoinSplit(s: string)
    ensures Join(Split(s)) == s
    decreases |s|
  {
    if s != [] {
      JoinSplit(s[1..]);
      if s[0] != '\n' {
        var rest := Split(s[1..]);
        if |rest| > 1 {
          assert Join(rest) == rest[0] + "\n" + Join(rest[1..]);
        }
      }
    }
  }

  /** One piece more than there are line breaks. */
  lemma {:induction false} SplitCount(s: string)
    ensures |Split(s)| == multiset(s)['\n'] + 1
    decreases |s|
  {
    if s != [] {
      SplitCount(s[1..]);
      assert s == [s[0]] + s[1..];
      assert multiset(s) == multiset([s[0]]) + multiset(s[1..]);
    }
  }

  lemma {:induction false} SplitSingle(p: string)
    requires '\n' !in p
    ensures Split(p) == [p]
    decreases |p|
  {
    if p != [] {
      SplitSingle(p[1..]);
      assert [p[0]] + p[1..] == p;
    }
  }

  lemma {:induction false} SplitAfter(p: string, t: string)
    requires '\n' !in p
    ensures Split(p + "\n" + t) == [p] + Split(t)
    decreases |p|
  {
    var s := p + "\n" + t;
    if p == [] {
      assert s[1..] == t;
    } else {
      assert s[1..] == p[1..] + "\n" + t;
      SplitAfter(p[1..], t);
      assert [p[0]] + p[1..] == p;
    }
  }

  /** The lines of Lines(ps) are ps, then the empty piece after the last break. */
  lemma {:induction false} SplitLines(ps: seq<string>)
    requires NoNewlines(ps)
    ensures Split(Lines(ps)) == ps + [""]
  {
    if ps != [] {
      SplitLines(ps[1..]);
      SplitAfter(ps[0], Lines(ps[1..]));
    }
  }

  lemma {:induction false} LinesAppend(a: seq<string>, b: seq<string>)
    ensures Lines(a + b) == Lines(a) + Lines(b)
  {
    if a == [] {
      assert a + b == b;
    } else {
      assert (a + b)[1..] == a[1..] + b;
      LinesAppend(a[1..], b);
    }
  }

  lemma LinesCons(p: string, ps: seq<string>)
    ensures Lines([p] + ps) == p + "\n" + Lines(ps)
  {
    assert ([p] + ps)[1..] == ps;
  }

  /** Appending one piece appends it and its line break. */
  lemma LinesSnoc(ps: seq<string>, p: string)
    ensures Lines(ps + [p]) == Lines(ps) + p + "\n"
    ensures Lines(ps + [p]) == Lines(ps) + (p + "\n")
  {
    LinesAppend(ps, [p]);
    LinesCons(p, []);
    assert [p] + [] == [p];
  }

  /** One more line break adds one more, empty, piece. */
  lemma {:induction false} SplitThenBreak(s: string)
    ensures Split(s + "\n") == Split(s) + [""]
    decreases |s|
  {
    if s == [] {
      assert s + "\n" == "\n";
      assert "\n"[1..] == "";
    } else {
      assert (s + "\n")[0] == s[0];
      assert (s + "\n")[1..] == s[1..] + "\n";
      SplitThenBreak(s[1..]);
      var rest := Split(s[1..]);
      if s[0] != '\n' {
        assert (rest + [""])[1..] == rest[1..] + [""];
      }
    }
  }
}
