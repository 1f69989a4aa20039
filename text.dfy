/** The java.lang.String operations the modelled code relies on, with
    Java's semantics: compareTo, indexOf, replace, repeat, isBlank and
    Integer.toString for non-negative values. */
module Text {

  /** String.compareTo: the difference of the first pair of chars that
      differ, or else the difference of the lengths. */
  function Compare(a: string, b: string): int
  {
    if |a| == 0 || |b| == 0 then |a| - |b|
    else if a[0] != b[0] then a[0] as int - b[0] as int
    else Compare(a[1..], b[1..])
  }

  /** The order `sorted()` uses on ids. */
  predicate Less(a: string, b: string)
  {
    Compare(a, b) < 0
  }

  lemma {:induction false} CompareZeroIffEqual(a: string, b: string)
    ensures Compare(a, b) == 0 <==> a == b
  {
    if |a| == 0 || |b| == 0 {
    } else if a[0] != b[0] {
    } else {
      CompareZeroIffEqual(a[1..], b[1..]);
      assert a == [a[0]] + a[1..] && b == [b[0]] + b[1..];
    }
  }

  lemma {:induction false} CompareAntisymmetric(a: string, b: string)
    ensures Compare(a, b) == -Compare(b, a)
  {
    if |a| == 0 || |b| == 0 {
    } else if a[0] != b[0] {
    } else {
      CompareAntisymmetric(a[1..], b[1..]);
    }
  }

  lemma {:induction false} CompareTransitive(a: string, b: string, c: string)
    requires Compare(a, b) < 0 && Compare(b, c) < 0
    ensures Compare(a, c) < 0
  {
    if |a| == 0 || |b| == 0 || |c| == 0 {
    } else if a[0] == b[0] && b[0] == c[0] {
      CompareTransitive(a[1..], b[1..], c[1..]);
    }
  }

  /** `Less` is a strict total order on strings. */
  lemma LessTotal(a: string, b: string)
    ensures a == b || Less(a, b) || Less(b, a)
    ensures !(Less(a, b) && Less(b, a))
    ensures !Less(a, a)
  {
    CompareZeroIffEqual(a, b);
    CompareAntisymmetric(a, b);
    CompareZeroIffEqual(a, a);
  }

  /** No string occurs twice in `s`. */
  predicate Distinct(s: seq<string>)
  {
    forall i, j | 0 <= i < j < |s| :: s[i] != s[j]
  }

  /** `pat` occurs in `s` starting at index `k`. */
  predicate OccursAt(s: string, pat: string, k: int)
  {
    0 <= k && k + |pat| <= |s| && s[k..k + |pat|] == pat
  }

  /** String.indexOf: the first index at which `pat` occurs, or -1. */
  function IndexOf(s: string, pat: string): (r: int)
    requires |pat| > 0
    ensures r >= -1
    ensures r >= 0 ==> OccursAt(s, pat, r)
    ensures forall j | 0 <= j < (if r < 0 then |s| else r) :: !OccursAt(s, pat, j)
  {
    if |s| < |pat| then -1
    else if s[..|pat|] == pat then 0
    else
      assert !OccursAt(s, pat, 0);
      var r := IndexOf(s[1..], pat);
      OccursAtTail(s, pat);
      if r < 0 then -1 else r + 1
  }

  /** An occurrence in the tail is an occurrence one further on. */
  lemma OccursAtTail(s: string, pat: string)
    requires |s| > 0
    ensures forall j | 0 <= j :: OccursAt(s[1..], pat, j) ==> OccursAt(s, pat, j + 1)
    ensures forall j | 1 <= j :: OccursAt(s, pat, j) ==> OccursAt(s[1..], pat, j - 1)
  {
    forall j | 0 <= j
      ensures OccursAt(s[1..], pat, j) <==> OccursAt(s, pat, j + 1)
    {
      if j + 1 + |pat| <= |s| {
        assert s[1..][j..j + |pat|] == s[j + 1..j + 1 + |pat|];
      }
    }
  }

  /** An occurrence with none before it is the one indexOf finds. */
  lemma FirstAt(s: string, pat: string, i: nat)
    requires |pat| > 0 && OccursAt(s, pat, i)
    requires forall j | 0 <= j < i :: !OccursAt(s, pat, j)
    ensures IndexOf(s, pat) == i
  {
    assert i < |s|;
  }

  /** String.contains. */
  predicate Contains(s: string, pat: string)
    requires |pat| > 0
  {
    IndexOf(s, pat) >= 0
  }

  /** String.startsWith. */
  predicate StartsWith(s: string, pat: string)
  {
    |pat| <= |s| && s[..|pat|] == pat
  }

  /** String.replace(CharSequence, CharSequence): every occurrence of `pat`,
      scanning left to right without overlap, is replaced by `rep`. */
  function ReplaceAll(s: string, pat: string, rep: string): string
    requires |pat| > 0
  {
    ReplaceFrom(s, pat, rep, 0)
  }

  /** The replacement scan, started at index `i` of `s`. */
  function ReplaceFrom(s: string, pat: string, rep: string, i: nat): string
    requires |pat| > 0 && i <= |s|
    decreases |s| - i
  {
    if i + |pat| > |s| then s[i..]
    else if OccursAt(s, pat, i) then rep + ReplaceFrom(s, pat, rep, i + |pat|)
    else [s[i]] + ReplaceFrom(s, pat, rep, i + 1)
  }

  /** The scan copies every char up to the next occurrence, then writes
      the replacement and carries on after it. */
  lemma {:induction false} ReplaceUpTo(s: string, pat: string, rep: string, i: nat, k: nat)
    requires |pat| > 0 && i <= k && OccursAt(s, pat, k)
    requires forall j | i <= j < k :: !OccursAt(s, pat, j)
    ensures ReplaceFrom(s, pat, rep, i) == s[i..k] + rep + ReplaceFrom(s, pat, rep, k + |pat|)
    decreases k - i
  {
    if i < k {
      ReplaceUpTo(s, pat, rep, i + 1, k);
      assert !OccursAt(s, pat, i);
      ReplaceSkip(s, pat, rep, i);
      ConsSlice(s, i, k, rep, ReplaceFrom(s, pat, rep, k + |pat|));
    } else {
      ReplaceHit(s, pat, rep, k);
    }
  }

  /** Up to the first occurrence the text is copied; there the
      replacement is written. */
  lemma ReplaceFirst(s: string, pat: string, rep: string)
    requires |pat| > 0 && IndexOf(s, pat) >= 0
    ensures var i := IndexOf(s, pat);
      ReplaceAll(s, pat, rep) == s[..i] + rep + ReplaceFrom(s, pat, rep, i + |pat|)
  {
    var i := IndexOf(s, pat);
    ReplaceUpTo(s, pat, rep, 0, i);
    assert s[0..i] == s[..i];
  }

  /** Where `pat` occurs, the scan writes the replacement and skips it. */
  lemma ReplaceHit(s: string, pat: string, rep: string, k: nat)
    requires |pat| > 0 && OccursAt(s, pat, k)
    ensures ReplaceFrom(s, pat, rep, k) == s[k..k] + rep + ReplaceFrom(s, pat, rep, k + |pat|)
  {
    assert s[k..k] == [];
  }

  /** Where `pat` does not occur, the scan copies one char. */
  lemma ReplaceSkip(s: string, pat: string, rep: string, i: nat)
    requires |pat| > 0 && i + |pat| <= |s| && !OccursAt(s, pat, i)
    ensures ReplaceFrom(s, pat, rep, i) == [s[i]] + ReplaceFrom(s, pat, rep, i + 1)
  {
  }

  lemma ConsSlice(s: string, i: nat, k: nat, a: string, b: string)
    requires i < k <= |s|
    ensures [s[i]] + (s[i + 1..k] + a + b) == s[i..k] + a + b
  {
    assert [s[i]] + s[i + 1..k] == s[i..k];
  }

  /** With no occurrence left, the scan copies the rest unchanged. */
  lemma {:induction false} ReplaceNone(s: string, pat: string, rep: string, i: nat)
    requires |pat| > 0 && i <= |s|
    requires forall j | i <= j < |s| :: !OccursAt(s, pat, j)
    ensures ReplaceFrom(s, pat, rep, i) == s[i..]
    decreases |s| - i
  {
    if i + |pat| <= |s| {
      ReplaceNone(s, pat, rep, i + 1);
      assert [s[i]] + s[i + 1..] == s[i..];
    }
  }

  /** A char that neither the text nor the replacement holds is not in
      the result. */
  lemma {:induction false} ReplaceLacks(s: string, pat: string, rep: string, i: nat, c: char)
    requires |pat| > 0 && i <= |s| && c !in s && c !in rep
    ensures c !in ReplaceFrom(s, pat, rep, i)
    decreases |s| - i
  {
    if i + |pat| > |s| {
      assert forall k | 0 <= k < |s[i..]| :: s[i..][k] == s[i + k];
    } else if OccursAt(s, pat, i) {
      ReplaceLacks(s, pat, rep, i + |pat|, c);
    } else {
      ReplaceLacks(s, pat, rep, i + 1, c);
    }
  }

  /** Replacing a pattern that occurs exactly once, at `k`, splices the
      replacement in at `k` and keeps everything else. */
  lemma ReplaceSingle(s: string, pat: string, rep: string, k: nat)
    requires |pat| > 0 && OccursAt(s, pat, k)
    requires forall j | 0 <= j < |s| && j != k :: !OccursAt(s, pat, j)
    ensures ReplaceAll(s, pat, rep) == s[..k] + rep + s[k + |pat|..]
  {
    ReplaceUpTo(s, pat, rep, 0, k);
    ReplaceNone(s, pat, rep, k + |pat|);
  }

  /** String.repeat for a single char. */
  function Repeat(c: char, n: nat): (r: string)
    ensures |r| == n && forall i | 0 <= i < n :: r[i] == c
  {
    seq(n, _ => c)
  }

  /** Character.isWhitespace: the Unicode space, line and paragraph
      separators other than the no-break ones, and the control chars
      U+0009 to U+000D and U+001C to U+001F. */
  predicate IsWhitespace(c: char)
  {
    || ('\U{9}' <= c <= '\U{D}')
    || ('\U{1C}' <= c <= '\U{20}')
    || c == '\U{1680}'
    || ('\U{2000}' <= c <= '\U{200A}' && c != '\U{2007}')
    || c == '\U{2028}' || c == '\U{2029}' || c == '\U{205F}' || c == '\U{3000}'
  }

  /** String.isBlank: empty or made of whitespace only. */
  predicate IsBlank(s: string)
  {
    forall i | 0 <= i < |s| :: IsWhitespace(s[i])
  }

  predicate IsDigit(c: char)
  {
    '0' <= c <= '9'
  }

  /** Integer.toString for a non-negative value: its decimal digits, most
      significant first, without leading zeros. */
  function Decimal(n: nat): (r: string)
    ensures |r| > 0 && forall i | 0 <= i < |r| :: IsDigit(r[i])
    ensures |r| > 1 ==> r[0] != '0'
  {
    if n < 10 then [DigitChar(n)]
    else Decimal(n / 10) + [DigitChar(n % 10)]
  }

  function DigitChar(d: nat): (c: char)
    requires d < 10
    ensures IsDigit(c)
  {
    ('0' as int + d) as char
  }

  /** The value of a decimal digit; any other char gives a value outside
      0 to 9. */
  function DigitValue(c: char): int
  {
    c as int - '0' as int
  }

  /** Reads a run of decimal digits back as a number. */
  function ParseDecimal(s: string): int
  {
    if |s| == 0 then 0
    else 10 * ParseDecimal(s[..|s| - 1]) + DigitValue(s[|s| - 1])
  }

  lemma {:induction false} DecimalRoundTrip(n: nat)
    ensures ParseDecimal(Decimal(n)) == n
  {
    if n >= 10 {
      DecimalRoundTrip(n / 10);
      var d := Decimal(n);
      assert d[..|d| - 1] == Decimal(n / 10);
    }
  }
}
