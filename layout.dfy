/** The text pass of GraphService.stringifyGraph. The walk leaves the
    token `<REPLACE-ME>` wherever a cross-reference follows; a first pass
    finds the column the leaders run to, and a second pass turns each
    token into a dotted leader ending at that column, or, on a line that
    starts with the token, into the indent of the last leader. */
module Layout {
  import opened Text

  /** The token the walk writes in front of a cross-reference. */
  const Placeholder: string := "<REPLACE-ME>"

  /** What the first pass measures: one less than the index of the token,
      or the whole length of a line without one. */
  function Width(line: string): int
  {
    if Contains(line, Placeholder) then IndexOf(line, Placeholder) - 1 else |line|
  }

  /** The first pass's maximum before 3 is added: the largest width, or 0
      if no width is larger. */
  function MaxWidth(lines: seq<string>): (w: int)
    ensures w >= 0
    ensures forall k | 0 <= k < |lines| :: Width(lines[k]) <= w
    ensures w == 0 || exists k | 0 <= k < |lines| :: Width(lines[k]) == w
  {
    if lines == [] then 0
    else
      var init := lines[..|lines| - 1];
      var w := MaxWidth(init);
      var x := Width(lines[|lines| - 1]);
      assert forall k | 0 <= k < |init| :: init[k] == lines[k];
      if x > w then x else w
  }

  /** The first loop of stringifyGraph: the column every leader runs to. */
  method TargetColumn(lines: seq<string>) returns (m: int)
    ensures m == MaxWidth(lines) + 3
  {
    var maxLength := 0;
    for k := 0 to |lines|
      invariant maxLength == MaxWidth(lines[..k])
    {
      var line := lines[k];
      var length := if Contains(line, Placeholder) then IndexOf(line, Placeholder) - 1 else |line|;
      if length > maxLength {
        maxLength := length;
      }
      assert lines[..k + 1][..k] == lines[..k];
    }
    assert lines[..|lines|] == lines;
    m := maxLength + 3;
  }

  /** The leader written for a token `c` columns short of the target: `c`
      dots between two spaces, or 3 dots when `c` is not positive. */
  function Leader(c: int): (r: string)
    ensures |r| == (if c > 0 then c else 3) + 2
    ensures r[0] == ' ' && r[|r| - 1] == ' ' && forall q | 0 < q < |r| - 1 :: r[q] == '.'
  {
    " " + Repeat('.', if c > 0 then c else 3) + " "
  }

  /** A rewritten line and the indent remembered after it. */
  datatype Rewrite = Rewrite(line: string, spaces: string)

  /** The second pass on one line, given the indent remembered so far and
      the target column `m`. */
  function Step(line: string, spaces: string, m: int): Rewrite
  {
    var spaces := if |line| > 0 && IsDigit(line[0]) then "" else spaces;
    if !Contains(line, Placeholder) then Rewrite(line, spaces)
    else if StartsWith(line, Placeholder) then Rewrite(ReplaceAll(line, Placeholder, spaces), spaces)
    else
      var rep := Leader(m - IndexOf(line, Placeholder));
      var out := ReplaceAll(line, Placeholder, rep);
      LeaderFound(line, rep);
      Rewrite(out, Repeat(' ', IndexOf(out, rep)) + rep)
  }

  /** The leader just written is found again, no later than where the
      token was. */
  lemma LeaderFound(line: string, rep: string)
    requires Contains(line, Placeholder) && |rep| > 0
    ensures 0 <= IndexOf(ReplaceAll(line, Placeholder, rep), rep) <= IndexOf(line, Placeholder)
  {
    var i := IndexOf(line, Placeholder);
    var out := ReplaceAll(line, Placeholder, rep);
    ReplaceFirst(line, Placeholder, rep);
    assert out[i..i + |rep|] == rep;
    assert OccursAt(out, rep, i);
  }

  /** The lines the second pass has written, and the indent it
      remembers, after `lines`. */
  datatype Rendering = Rendering(outs: seq<string>, spaces: string)

  function Rewritten(lines: seq<string>, m: int): (r: Rendering)
    ensures |r.outs| == |lines|
  {
    if lines == [] then Rendering([], "")
    else
      var prev := Rewritten(lines[..|lines| - 1], m);
      var step := Step(lines[|lines| - 1], prev.spaces, m);
      Rendering(prev.outs + [step.line], step.spaces)
  }

  /** Every line followed by a newline. */
  function Join(outs: seq<string>): string
  {
    if outs == [] then "" else Join(outs[..|outs| - 1]) + outs[|outs| - 1] + "\n"
  }

  /** The second loop of stringifyGraph. */
  method Render(lines: seq<string>, m: int) returns (text: string)
    ensures text == Join(Rewritten(lines, m).outs)
  {
    var sb := "";
    var spaces := "";
    for k := 0 to |lines|
      invariant sb == Join(Rewritten(lines[..k], m).outs)
      invariant spaces == Rewritten(lines[..k], m).spaces
    {
      assert lines[..k + 1][..k] == lines[..k];
      var line := lines[k];
      if |line| > 0 && IsDigit(line[0]) {
        spaces := "";
      }
      if Contains(line, Placeholder) {
        if StartsWith(line, Placeholder) {
          line := ReplaceAll(line, Placeholder, spaces);
        } else {
          var c := m - IndexOf(line, Placeholder);
          var replacement := " " + Repeat('.', if c > 0 then c else 3) + " ";
          line := ReplaceAll(line, Placeholder, replacement);
          LeaderFound(lines[k], replacement);
          spaces := Repeat(' ', IndexOf(line, replacement)) + replacement;
        }
      }
      sb := sb + line + "\n";
    }
    assert lines[..|lines|] == lines;
    text := sb;
  }

  /** No ' ' in `s` is followed by a '.', so no leader can start in it. */
  predicate NoLeaderStart(s: string)
  {
    forall p | 0 <= p < |s| :: !OccursAt(s, " .", p)
  }

  /** A line whose only token is at column i > 0, with the target column
      m at least 3 past the measured width: the token becomes a leader of
      m - i >= 2 dots (the 3-dot fallback is never taken), so the text
      after it starts at column m + 2; and, if no leader can start before
      the token, the remembered indent is i spaces and that leader, which
      also reaches column m + 2. */
  lemma LeaderLine(line: string, spaces: string, m: int, i: nat)
    requires 0 < i && OccursAt(line, Placeholder, i)
    requires forall j | 0 <= j < |line| && j != i :: !OccursAt(line, Placeholder, j)
    requires m >= Width(line) + 3
    ensures m - i >= 2 && |Leader(m - i)| == m - i + 2
    ensures Step(line, spaces, m).line == line[..i] + Leader(m - i) + line[i + |Placeholder|..]
    ensures |line[..i] + Leader(m - i)| == m + 2
    ensures NoLeaderStart(line[..i]) ==> Step(line, spaces, m).spaces == Repeat(' ', i) + Leader(m - i)
  {
    FirstAt(line, Placeholder, i);
    var rep := Leader(m - i);
    ReplaceSingle(line, Placeholder, rep, i);
    if NoLeaderStart(line[..i]) {
      LeaderAt(line[..i], rep, line[i + |Placeholder|..]);
    }
  }

  /** A line holding the token once, after a text in which no leader
      can start, gets the leader in its place and remembers the indent
      up to the leader followed by the leader. */
  lemma LeaderSplice(pre: string, post: string, spaces: string, m: int)
    requires 0 < |pre| && NoLeaderStart(pre)
    requires var line := pre + Placeholder + post;
      && OccursAt(line, Placeholder, |pre|)
      && (forall j | 0 <= j < |line| && j != |pre| :: !OccursAt(line, Placeholder, j))
      && m >= Width(line) + 3
    ensures m - |pre| >= 2
    ensures Step(pre + Placeholder + post, spaces, m)
      == Rewrite(pre + Leader(m - |pre|) + post, Repeat(' ', |pre|) + Leader(m - |pre|))
  {
    var line := pre + Placeholder + post;
    assert line[..|pre|] == pre;
    assert line[|pre| + |Placeholder|..] == post;
    LeaderLine(line, spaces, m, |pre|);
  }

  /** A leader written after a text in which none can start is found
      where it was written. */
  lemma LeaderAt(pre: string, rep: string, post: string)
    requires NoLeaderStart(pre)
    requires |rep| >= 2 && rep[0] == ' ' && rep[1] == '.'
    ensures IndexOf(pre + rep + post, rep) == |pre|
  {
    var out := pre + rep + post;
    var i := |pre|;
    assert out[i..i + |rep|] == rep;
    forall j | 0 <= j < i
      ensures !OccursAt(out, rep, j)
    {
      assert out[j] == ' ' && out[j + 1] == '.' ==> OccursAt(pre, " .", j) by {
        if j + 1 < i {
          assert out[j] == pre[j] && out[j + 1] == pre[j + 1];
          assert pre[j] == ' ' && pre[j + 1] == '.' ==> pre[j..j + 2] == " .";
        } else {
          assert out[j + 1] == rep[0];
        }
      }
    }
    FirstAt(out, rep, i);
  }

  /** A line that starts with its only token is the remembered indent
      followed by the rest of the line, and keeps that indent. */
  lemma ContinuationLine(line: string, spaces: string, m: int)
    requires OccursAt(line, Placeholder, 0)
    requires forall j | 0 < j < |line| :: !OccursAt(line, Placeholder, j)
    ensures Step(line, spaces, m) == Rewrite(spaces + line[|Placeholder|..], spaces)
  {
    FirstAt(line, Placeholder, 0);
    assert line[0] == '<' by {
      assert line[..|Placeholder|] == Placeholder;
    }
    ReplaceSingle(line, Placeholder, spaces, 0);
    assert line[..0] == [];
  }

  /** A line without a token is written unchanged; it clears the
      remembered indent exactly when it starts with a digit. */
  lemma PlainLine(line: string, spaces: string, m: int)
    requires forall j | 0 <= j < |line| :: !OccursAt(line, Placeholder, j)
    ensures Step(line, spaces, m).line == line
    ensures Step(line, spaces, m).spaces == if |line| > 0 && IsDigit(line[0]) then "" else spaces
  {
  }

  /** Without a newline in the line or the remembered indent, none is
      written. */
  lemma StepLacksNewline(line: string, spaces: string, m: int)
    requires '\n' !in line && '\n' !in spaces
    ensures '\n' !in Step(line, spaces, m).line && '\n' !in Step(line, spaces, m).spaces
  {
    var sp := if |line| > 0 && IsDigit(line[0]) then "" else spaces;
    if Contains(line, Placeholder) {
      if StartsWith(line, Placeholder) {
        ReplaceLacks(line, Placeholder, sp, 0, '\n');
      } else {
        var rep := Leader(m - IndexOf(line, Placeholder));
        ReplaceLacks(line, Placeholder, rep, 0, '\n');
      }
    }
  }

  /** The second pass writes no newline when the lines hold none. */
  lemma {:induction false} RewrittenLacksNewline(lines: seq<string>, m: int)
    requires forall k | 0 <= k < |lines| :: '\n' !in lines[k]
    ensures forall k | 0 <= k < |lines| :: '\n' !in Rewritten(lines, m).outs[k]
    ensures '\n' !in Rewritten(lines, m).spaces
  {
    if lines != [] {
      var init := lines[..|lines| - 1];
      RewrittenLacksNewline(init, m);
      StepLacksNewline(lines[|lines| - 1], Rewritten(init, m).spaces, m);
    }
  }

  function Newlines(s: string): nat
  {
    if s == [] then 0 else Newlines(s[..|s| - 1]) + if s[|s| - 1] == '\n' then 1 else 0
  }

  lemma {:induction false} NewlinesConcat(a: string, b: string)
    ensures Newlines(a + b) == Newlines(a) + Newlines(b)
    decreases |b|
  {
    if b != [] {
      NewlinesConcat(a, b[..|b| - 1]);
      assert (a + b)[..|a + b| - 1] == a + b[..|b| - 1];
    } else {
      assert a + b == a;
    }
  }

  lemma {:induction false} NewlinesNone(s: string)
    requires '\n' !in s
    ensures Newlines(s) == 0
  {
    if s != [] {
      NewlinesNone(s[..|s| - 1]);
    }
  }

  /** Joined lines without newlines of their own make a text with one
      newline per line, ending with one. */
  lemma {:induction false} JoinLines(outs: seq<string>)
    requires forall k | 0 <= k < |outs| :: '\n' !in outs[k]
    ensures Newlines(Join(outs)) == |outs|
    ensures outs != [] ==> Join(outs)[|Join(outs)| - 1] == '\n'
  {
    if outs != [] {
      var init := outs[..|outs| - 1];
      JoinLines(init);
      NewlinesNone(outs[|outs| - 1]);
      NewlinesConcat(Join(init), outs[|outs| - 1]);
      NewlinesConcat(Join(init) + outs[|outs| - 1], "\n");
    }
  }

  /** The text stringifyGraph returns for a list of lines: one output line
      per line, in order. */
  lemma RenderedLines(lines: seq<string>, m: int)
    requires forall k | 0 <= k < |lines| :: '\n' !in lines[k]
    ensures Newlines(Join(Rewritten(lines, m).outs)) == |lines|
  {
    RewrittenLacksNewline(lines, m);
    JoinLines(Rewritten(lines, m).outs);
  }

  /** The k-th written line is the step on the k-th line. */
  lemma {:induction false} RewrittenAt(lines: seq<string>, m: int, k: nat)
    requires k < |lines|
    ensures Rewritten(lines, m).outs[k] == Step(lines[k], Rewritten(lines[..k], m).spaces, m).line
    decreases |lines|
  {
    if k < |lines| - 1 {
      var init := lines[..|lines| - 1];
      RewrittenAt(init, m, k);
      assert init[..k] == lines[..k];
    } else {
      assert lines[..|lines| - 1] == lines[..k];
    }
  }
}
