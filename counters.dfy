/** Outline numbers: GraphService.formatCounters and what it promises.
    An outline number such as [1, 3, 2] is written "1.3.2". */
module Counters {
  import opened Text

  /** The dot-joined decimal form of a non-empty outline number. */
  function Dotted(c: seq<nat>): (s: string)
    requires |c| > 0
    ensures |s| > 0 && IsDigit(s[0])
    ensures forall i | 0 <= i < |s| :: IsDigit(s[i]) || s[i] == '.'
  {
    if |c| == 1 then Decimal(c[0])
    else Dotted(c[..|c| - 1]) + "." + Decimal(c[|c| - 1])
  }

  /** What the formatting loop has built after `c`: a '.' before every
      counter. */
  function DotPrefixed(c: seq<nat>): string
  {
    if |c| == 0 then ""
    else DotPrefixed(c[..|c| - 1]) + "." + Decimal(c[|c| - 1])
  }

  lemma {:induction false} DotPrefixedIsDotted(c: seq<nat>)
    requires |c| > 0
    ensures DotPrefixed(c) == "." + Dotted(c)
  {
    if |c| > 1 {
      DotPrefixedIsDotted(c[..|c| - 1]);
    }
  }

  /** formatCounters: appends '.' and each counter, then drops the leading
      '.'. The caller always passes a non-empty list (the walk starts
      with [1] and only ever lengthens it); on an empty list the Java code
      would fail in `substring(1)`. */
  method FormatCounters(counters: seq<nat>) returns (s: string)
    requires |counters| > 0
    ensures s == Dotted(counters)
  {
    var sb := "";
    for i := 0 to |counters|
      invariant sb == DotPrefixed(counters[..i])
    {
      assert counters[..i + 1][..i] == counters[..i];
      sb := sb + "." + Decimal(counters[i]);
    }
    assert counters[..|counters|] == counters;
    DotPrefixedIsDotted(counters);
    s := sb[1..];
  }

  /** Index of the last '.' in `s`, or -1. */
  function LastDot(s: string): (k: int)
    ensures -1 <= k < |s|
    ensures k >= 0 ==> s[k] == '.'
    ensures forall j | k < j < |s| :: s[j] != '.'
  {
    if |s| == 0 then -1
    else if s[|s| - 1] == '.' then |s| - 1
    else LastDot(s[..|s| - 1])
  }

  /** Reads a dot-joined decimal string back into its counters. */
  function ParseCounters(s: string): seq<int>
    decreases |s|
  {
    var k := LastDot(s);
    if k < 0 then [ParseDecimal(s)]
    else ParseCounters(s[..k]) + [ParseDecimal(s[k + 1..])]
  }

  /** Distinct outline numbers are written differently: the written form
      reads back as the number. */
  lemma {:induction false} CountersRoundTrip(c: seq<nat>)
    requires |c| > 0
    ensures ParseCounters(Dotted(c)) == c
  {
    if |c| > 1 {
      var init := c[..|c| - 1];
      CountersRoundTrip(init);
      RoundTripStep(init, c[|c| - 1]);
      assert init + [c[|c| - 1]] == c;
    } else {
      DecimalRoundTrip(c[0]);
      LastDotNone(Decimal(c[0]));
    }
  }

  lemma RoundTripStep(init: seq<nat>, x: nat)
    requires |init| > 0 && ParseCounters(Dotted(init)) == init
    ensures ParseCounters(Dotted(init + [x])) == init + [x]
  {
    DottedSnoc(init, x);
    DecimalRoundTrip(x);
    ParseSnoc(Dotted(init), Decimal(x));
  }

  lemma DottedSnoc(init: seq<nat>, x: nat)
    requires |init| > 0
    ensures Dotted(init + [x]) == Dotted(init) + "." + Decimal(x)
  {
    assert (init + [x])[..|init|] == init;
  }

  /** Parsing reads the counter after the last '.' on its own. */
  lemma ParseSnoc(a: string, d: string)
    requires forall i | 0 <= i < |d| :: IsDigit(d[i])
    ensures ParseCounters(a + "." + d) == ParseCounters(a) + [ParseDecimal(d)]
  {
    var s := a + "." + d;
    LastDotAfter(a, d);
    assert s[..|a|] == a && s[|a| + 1..] == d;
  }

  lemma LastDotNone(d: string)
    requires forall i | 0 <= i < |d| :: IsDigit(d[i])
    ensures LastDot(d) == -1
  {
  }

  lemma LastDotAfter(a: string, d: string)
    requires forall i | 0 <= i < |d| :: IsDigit(d[i])
    ensures LastDot(a + "." + d) == |a|
  {
    var s := a + "." + d;
    var k := LastDot(s);
    assert s[|a|] == '.';
  }

  lemma ExampleFormat()
    ensures Dotted([1, 3, 2]) == "1.3.2"
  {
    assert [1, 3, 2][..2] == [1, 3];
    assert [1, 3][..1] == [1];
  }
}
