/** GraphService.stringifyGraph: the walk from the root, then the two text
    passes, and what the printout looks like line by line. */
module Printout {
  import opened Base
  import opened Text
  import opened Counters
  import opened Layout
  import opened Outline

  /** The text returned for the walk's lines: the second pass, with the
      target column the first pass computes. */
  function Printed(lines: seq<string>): string
  {
    Join(Rewritten(lines, MaxWidth(lines) + 3).outs)
  }

  /** The text stringifyGraph returns: an error for an unknown root,
      otherwise the printout of the lines of the reference walk from the
      root, with the counters at [1] and nothing visited. */
  function PrintoutOf(adj: map<string, set<string>>, kind: map<string, NodeType>, root: string,
                      incoming: (string, string) -> seq<string>): Result<string>
    requires GraphOk(adj, kind)
  {
    if root !in adj then Err(IllegalArgument(""))
    else Ok(Printed(Texts(Expansion(adj, kind, root, incoming, root, [1], {}).lines)))
  }

  /** The text Render builds at the target column is the printout. */
  lemma PrintedIs(lines: seq<string>, m: int, text: string)
    requires m == MaxWidth(lines) + 3 && text == Join(Rewritten(lines, m).outs)
    ensures text == Printed(lines)
  {
  }

  /** For a known root, stringifyGraph's text is the printout of the
      reference walk's lines. */
  lemma PrintoutOfWalk(adj: map<string, set<string>>, kind: map<string, NodeType>, root: string,
                       incoming: (string, string) -> seq<string>, raw: seq<RawLine>)
    requires GraphOk(adj, kind) && root in adj
    requires raw == Expansion(adj, kind, root, incoming, root, [1], {}).lines
    ensures PrintoutOf(adj, kind, root, incoming) == Ok(Printed(Texts(raw)))
  {
  }

  /** GraphService.stringifyGraph over a snapshot of the graph: `adj`
      holds each node's stored neighbours, `kind` each node's type and
      `incoming` stands for NodeService.findIncomingLexemes. An unknown
      root is rejected before any line is built. Otherwise the returned
      text is the printout of the walk's lines, whose entries name the
      reached lexemes once each, in the order they were expanded, each
      with its own distinct outline number, the root's being 1. */
  method StringifyGraph(adj: map<string, set<string>>, kind: map<string, NodeType>, root: string,
                        incoming: (string, string) -> seq<string>)
    returns (r: Result<string>, ghost raw: seq<RawLine>, ghost order: seq<string>,
             ghost number: map<string, seq<nat>>)
    requires GraphOk(adj, kind)
    ensures r.Err? <==> root !in adj
    ensures r.Err? ==> r.error.IllegalArgument?
    ensures r.Ok? ==> Outcome(adj, kind, root, raw, order, number) && r.value == Printed(Texts(raw))
    ensures r == PrintoutOf(adj, kind, root, incoming)
  {
    if root !in adj {
      return Err(IllegalArgument("")), [], [], map[];
    }
    var lines;
    lines, raw, order, number := WalkFromRoot(adj, kind, root, incoming);
    var m := TargetColumn(lines);
    var text := Render(lines, m);
    PrintedIs(lines, m, text);
    r := Ok(text);
    PrintoutOfWalk(adj, kind, root, incoming, raw);
  }

  /** What the walk from the root leaves: the lines stand for entries
      that name the reached lexemes once each, in the order the nodes
      were expanded from the root on, each entry with its node's outline
      number, distinct for distinct nodes, the root's being 1; and a
      continuation line only ever follows a line with a reference. */
  ghost predicate Outcome(adj: map<string, set<string>>, kind: map<string, NodeType>, root: string,
                          raw: seq<RawLine>, order: seq<string>, number: map<string, seq<nat>>)
  {
    && Numbered(raw)
    && |order| > 0 && order[0] == root && root in number && number[root] == [1]
    && Distinct(order) && (forall v | v in order :: v in kind)
    && EntryIds(raw) == Lexemes(order, kind) && Distinct(EntryIds(raw))
    && EntriesNumbered(raw, number) && Injective(number)
    && Chained(raw)
  }

  /** The first half of stringifyGraph: the walk from the root with the
      counters at [1], giving the lines to lay out. */
  method WalkFromRoot(adj: map<string, set<string>>, kind: map<string, NodeType>, root: string,
              incoming: (string, string) -> seq<string>)
    returns (lines: seq<string>, ghost raw: seq<RawLine>, ghost order: seq<string>,
             ghost number: map<string, seq<nat>>)
    requires GraphOk(adj, kind) && root in adj
    ensures Outcome(adj, kind, root, raw, order, number) && lines == Texts(raw)
    ensures raw == Expansion(adj, kind, root, incoming, root, [1], {}).lines
  {
    var w := new Walker(adj, kind, root, incoming);
    ghost var children := w.Stringify(root);
    lines, raw, order, number := w.lines, w.raw, w.order, w.number;
    w.Facts();
  }

  /** An id the printout can show as is: no '<' (so no token is found
      inside it), no newline, and no '.' at its start or after a space
      (so no leader is found inside it). */
  predicate PlainId(id: string)
  {
    '<' !in id && '\n' !in id && !StartsWith(id, ".") && NoLeaderStart(id)
  }

  /** A walk line whose ids are all plain. */
  predicate Plain(l: RawLine)
  {
    match l
    case Entry(n, id, ref) => |n| > 0 && PlainId(id) && (ref.Some? ==> PlainId(ref.value))
    case Continuation(t) => PlainId(t)
  }

  /** The column of an entry's token: after its number, a space and its
      id. */
  function Column(n: seq<nat>, id: string): nat
    requires |n| > 0
  {
    |Dotted(n)| + 1 + |id|
  }

  /** How the second pass shows a walk line, given the remembered indent. */
  function Shown(l: RawLine, spaces: string, m: int): string
    requires l.Entry? ==> |l.number| > 0
  {
    match l
    case Entry(n, id, None) => Dotted(n) + " " + id
    case Entry(n, id, Some(t)) => Dotted(n) + " " + id + Leader(m - Column(n, id)) + t
    case Continuation(t) => spaces + t
  }

  /** The indent remembered after a walk line: cleared by an entry,
      set by an entry's leader, kept by a continuation. */
  function NextIndent(l: RawLine, spaces: string, m: int): string
    requires l.Entry? ==> |l.number| > 0
  {
    match l
    case Entry(n, id, None) => ""
    case Entry(n, id, Some(_)) => Repeat(' ', Column(n, id)) + Leader(m - Column(n, id))
    case Continuation(_) => spaces
  }

  function IndentAfter(raw: seq<RawLine>, m: int): string
    requires Numbered(raw)
  {
    if raw == [] then ""
    else NextIndent(raw[|raw| - 1], IndentAfter(raw[..|raw| - 1], m), m)
  }

  /** No token is found away from the only '<'. */
  lemma SoleToken(s: string, i: int)
    requires forall p | 0 <= p < |s| && p != i :: s[p] != '<'
    ensures forall j | 0 <= j < |s| && j != i :: !OccursAt(s, Placeholder, j)
  {
    forall j | 0 <= j < |s| && j != i
      ensures !OccursAt(s, Placeholder, j)
    {
      assert s[j] != Placeholder[0];
    }
  }

  /** The second pass on one plain walk line. */
  lemma LineStep(l: RawLine, spaces: string, m: int)
    requires Plain(l) && m >= Width(LineText(l)) + 3
    ensures Step(LineText(l), spaces, m) == Rewrite(Shown(l, spaces, m), NextIndent(l, spaces, m))
  {
    match l
    case Entry(n, id, None) => EntryStep(n, id, spaces, m);
    case Entry(n, id, Some(t)) => RefStep(n, id, t, spaces, m);
    case Continuation(t) => ContinuationStep(t, spaces, m);
  }

  lemma EntryStep(n: seq<nat>, id: string, spaces: string, m: int)
    requires Plain(Entry(n, id, None))
    ensures Step(Dotted(n) + " " + id, spaces, m) == Rewrite(Dotted(n) + " " + id, "")
  {
    SoleToken(Dotted(n) + " " + id, -1);
    PlainLine(Dotted(n) + " " + id, spaces, m);
  }

  lemma RefStep(n: seq<nat>, id: string, t: string, spaces: string, m: int)
    requires Plain(Entry(n, id, Some(t)))
    requires m >= Width(Dotted(n) + " " + id + Placeholder + t) + 3
    ensures Step(Dotted(n) + " " + id + Placeholder + t, spaces, m) ==
      Rewrite(Dotted(n) + " " + id + Leader(m - Column(n, id)) + t,
              Repeat(' ', Column(n, id)) + Leader(m - Column(n, id)))
  {
    var d := Dotted(n);
    DottedPlain(n);
    var pre := d + " " + id;
    TokenBetween(pre, t);
    PlainPrefix(d, id);
    LeaderSplice(pre, t, spaces, m);
    assert |pre| == Column(n, id);
  }

  /** An outline number holds neither spaces nor '<'. */
  lemma DottedPlain(n: seq<nat>)
    requires |n| > 0
    ensures ' ' !in Dotted(n) && '<' !in Dotted(n)
  {
  }

  /** A token between two texts without '<' is the only one. */
  lemma TokenBetween(pre: string, post: string)
    requires '<' !in pre && '<' !in post
    ensures var s := pre + Placeholder + post;
      && OccursAt(s, Placeholder, |pre|)
      && (forall j | 0 <= j < |s| && j != |pre| :: !OccursAt(s, Placeholder, j))
      && s[..|pre|] == pre && s[|pre| + |Placeholder|..] == post
  {
    var s := pre + Placeholder + post;
    assert s[|pre|..|pre| + |Placeholder|] == Placeholder;
    PlaceholderOnce();
    SoleToken(s, |pre|);
  }

  lemma ContinuationStep(t: string, spaces: string, m: int)
    requires PlainId(t)
    ensures Step(Placeholder + t, spaces, m) == Rewrite(spaces + t, spaces)
  {
    TokenBetween("", t);
    assert "" + Placeholder + t == Placeholder + t;
    ContinuationLine(Placeholder + t, spaces, m);
  }

  /** The token holds only one '<'. */
  lemma PlaceholderOnce()
    ensures forall q | 1 <= q < |Placeholder| :: Placeholder[q] != '<'
  {
  }

  /** No leader can start in a text without spaces, a space and a plain
      id: an entry's number, a space and its id. */
  lemma PlainPrefix(d: string, id: string)
    requires ' ' !in d && PlainId(id)
    ensures NoLeaderStart(d + " " + id)
  {
    var pre := d + " " + id;
    forall p | 0 <= p < |pre|
      ensures !OccursAt(pre, " .", p)
    {
      if p > |d| && p + 2 <= |pre| {
        assert pre[p..p + 2] == id[p - |d| - 1..p - |d| + 1];
        assert !OccursAt(id, " .", p - |d| - 1);
      } else if p == |d| && p + 2 <= |pre| {
        assert pre[p + 1] == id[0];
        assert id[..1] != ".";
      } else if p < |d| {
        assert pre[p] == d[p];
      }
    }
  }

  lemma {:induction false} TextsPrefix(raw: seq<RawLine>, k: nat)
    requires Numbered(raw) && k < |raw|
    ensures Texts(raw)[k] == LineText(raw[k]) && Texts(raw)[..k] == Texts(raw[..k])
  {
    var init := raw[..|raw| - 1];
    if k < |raw| - 1 {
      TextsPrefix(init, k);
      assert init[..k] == raw[..k];
    } else {
      assert init == raw[..k];
    }
  }

  /** The indent the second pass remembers follows the walk lines. */
  lemma {:induction false} RenderedSpaces(raw: seq<RawLine>, m: int)
    requires forall k | 0 <= k < |raw| :: Plain(raw[k]) && m >= Width(LineText(raw[k])) + 3
    ensures Numbered(raw) && Rewritten(Texts(raw), m).spaces == IndentAfter(raw, m)
  {
    if raw != [] {
      var init := raw[..|raw| - 1];
      var l := raw[|raw| - 1];
      RenderedSpaces(init, m);
      assert Texts(raw)[..|raw| - 1] == Texts(init);
      LineStep(l, IndentAfter(init, m), m);
    }
  }

  /** The nearest entry at or above line k. */
  function Anchor(raw: seq<RawLine>, k: nat): (a: nat)
    requires k < |raw|
    ensures a <= k
  {
    if raw[k].Entry? || k == 0 then k else Anchor(raw, k - 1)
  }

  /** Above a continuation line the nearest entry carries a reference,
      and its leader is the indent remembered. */
  lemma {:induction false} AnchorIndent(raw: seq<RawLine>, k: nat, m: int)
    requires Numbered(raw) && Chained(raw) && k < |raw| && raw[k].Continuation?
    ensures raw[Anchor(raw, k)].Entry? && raw[Anchor(raw, k)].ref.Some?
    ensures IndentAfter(raw[..k], m) == NextIndent(raw[Anchor(raw, k)], "", m)
  {
    var p := raw[..k];
    assert p[..k - 1] == raw[..k - 1];
    if raw[k - 1].Continuation? {
      AnchorIndent(raw, k - 1, m);
    }
  }

  /** Every walk line is within the measured width. */
  lemma Widths(raw: seq<RawLine>)
    requires forall j | 0 <= j < |raw| :: Plain(raw[j])
    ensures Numbered(raw)
    ensures forall j | 0 <= j < |raw| :: MaxWidth(Texts(raw)) >= Width(LineText(raw[j]))
  {
    forall j | 0 <= j < |raw|
      ensures MaxWidth(Texts(raw)) >= Width(LineText(raw[j]))
    {
      TextsPrefix(raw, j);
    }
  }

  /** The k-th printed line shows the k-th walk line, with the indent
      remembered after the lines above it. */
  lemma ShownAt(raw: seq<RawLine>, k: nat, m: int)
    requires forall j | 0 <= j < |raw| :: Plain(raw[j]) && m >= Width(LineText(raw[j])) + 3
    requires k < |raw|
    ensures Numbered(raw) && Rewritten(Texts(raw), m).outs[k] == Shown(raw[k], IndentAfter(raw[..k], m), m)
  {
    var lines := Texts(raw);
    var before := raw[..k];
    TextsPrefix(raw, k);
    assert forall j | 0 <= j < k :: before[j] == raw[j];
    RenderedSpaces(before, m);
    var spaces := IndentAfter(before, m);
    assert Rewritten(lines[..k], m).spaces == spaces;
    RewrittenAt(lines, m, k);
    LineStep(raw[k], spaces, m);
  }

  /** The first pass measures an entry with a reference up to its
      token's column. */
  lemma RefWidth(n: seq<nat>, id: string, t: string)
    requires Plain(Entry(n, id, Some(t)))
    ensures Width(LineText(Entry(n, id, Some(t)))) == Column(n, id) - 1
  {
    DottedPlain(n);
    TokenBetween(Dotted(n) + " " + id, t);
    FirstAt(LineText(Entry(n, id, Some(t))), Placeholder, Column(n, id));
  }

  /* The printout, line by line, for plain ids and a target column m
     that every line fits (Widths shows the one stringifyGraph picks
     does): an entry without a reference is its number, a space and its
     id; an entry with one has a leader of at least 2 dots after its id,
     ending in column m; a continuation line is the indent of the
     nearest entry above, which carries a reference, then the leader of
     that entry. */

  /** An entry without a reference shows its number and id. */
  lemma EntryShown(raw: seq<RawLine>, k: nat, m: int)
    requires forall j | 0 <= j < |raw| :: Plain(raw[j]) && m >= Width(LineText(raw[j])) + 3
    requires k < |raw| && raw[k].Entry? && raw[k].ref.None?
    ensures Numbered(raw)
    ensures Rewritten(Texts(raw), m).outs[k] == Dotted(raw[k].number) + " " + raw[k].id
  {
    ShownAt(raw, k, m);
  }

  /** An entry with a reference shows its number, its id, a leader of
      at least 2 dots ending in column m, and the reference. */
  lemma RefShown(raw: seq<RawLine>, k: nat, m: int)
    requires forall j | 0 <= j < |raw| :: Plain(raw[j]) && m >= Width(LineText(raw[j])) + 3
    requires k < |raw| && raw[k].Entry? && raw[k].ref.Some?
    ensures Numbered(raw)
    ensures var l := raw[k];
      && m - Column(l.number, l.id) >= 2
      && Rewritten(Texts(raw), m).outs[k]
         == Dotted(l.number) + " " + l.id + Leader(m - Column(l.number, l.id)) + l.ref.value
  {
    var l := raw[k];
    assert Plain(l) && m >= Width(LineText(l)) + 3;
    assert l == Entry(l.number, l.id, Some(l.ref.value));
    RefWidth(l.number, l.id, l.ref.value);
    ShownAt(raw, k, m);
  }

  /** A continuation line shows the leader of its anchor entry. */
  lemma ContinuationShown(raw: seq<RawLine>, k: nat, m: int)
    requires forall j | 0 <= j < |raw| :: Plain(raw[j]) && m >= Width(LineText(raw[j])) + 3
    requires Chained(raw) && k < |raw| && raw[k].Continuation?
    ensures Numbered(raw)
    ensures var a := raw[Anchor(raw, k)];
      && a.Entry? && a.ref.Some? && m - Column(a.number, a.id) >= 2
      && Rewritten(Texts(raw), m).outs[k]
         == Repeat(' ', Column(a.number, a.id)) + Leader(m - Column(a.number, a.id)) + raw[k].target
  {
    ShownAt(raw, k, m);
    AnchorIndent(raw, k, m);
    var a := raw[Anchor(raw, k)];
    RefWidth(a.number, a.id, a.ref.value);
  }

}
