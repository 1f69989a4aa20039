/** GraphService.stringify: the depth-first walk that numbers lexeme nodes
    and records their cross-references, over a snapshot of the graph.

    The walk's three pieces of shared mutable state (the visited set, the
    list of lines and the counters list, which the Java code passes by
    reference into every recursive call) are the fields of a Walker.
    Beside the real lines the Walker keeps, as ghost state, what each line
    stands for (`raw`) and the outline number each expanded node was given
    (`number`). */
module Outline {
  import opened Base
  import opened Text
  import opened Counters
  import opened Layout

  /** A snapshot: every node has a type, and every id a node lists as a
      neighbour is itself a node of the snapshot. `adj[v]` holds the ids
      of the edges stored with `v` as source. */
  predicate GraphOk(adj: map<string, set<string>>, kind: map<string, NodeType>)
  {
    adj.Keys == kind.Keys && forall v | v in adj :: adj[v] <= adj.Keys
  }

  predicate IsLexeme(kind: map<string, NodeType>, v: string)
  {
    v in kind && kind[v] == Lexeme
  }

  /** Strictly ascending in the order of Node.compareTo. */
  predicate Sorted(s: seq<string>)
  {
    forall i, j | 0 <= i < j < |s| :: Less(s[i], s[j])
  }

  /** `x` is the least id of `s`. */
  predicate Least(s: set<string>, x: string)
  {
    x in s && forall y | y in s :: !Less(y, x)
  }

  lemma LessTransitive(a: string, b: string, c: string)
    ensures Less(a, b) && Less(b, c) ==> Less(a, c)
  {
    if Less(a, b) && Less(b, c) {
      CompareTransitive(a, b, c);
    }
  }

  /** Every non-empty set of ids has a least one. */
  lemma {:induction false} LeastExists(s: set<string>)
    requires s != {}
    ensures exists x :: Least(s, x)
    decreases s
  {
    var z :| z in s;
    LessTotal(z, z);
    if s - {z} == {} {
      assert forall y | y in s :: y in s - {z} || y == z;
      assert Least(s, z);
    } else {
      LeastExists(s - {z});
      var x :| Least(s - {z}, x);
      if Less(z, x) {
        forall y | y in s
          ensures !Less(y, z)
        {
          LessTransitive(y, z, x);
        }
        assert Least(s, z);
      } else {
        assert Least(s, x);
      }
    }
  }

  /** The least id is unique. */
  lemma LeastUnique(s: set<string>)
    ensures forall a, b | Least(s, a) && Least(s, b) :: a == b
  {
    forall a, b | Least(s, a) && Least(s, b)
      ensures a == b
    {
      LessTotal(a, b);
    }
  }

  /** `stream().sorted()` over a node's neighbours: their ids, each once,
      taking the least remaining id each time (AscendingSorted: in
      ascending order). */
  function Ascending(s: set<string>): (r: seq<string>)
    ensures forall y :: y in r <==> y in s
    decreases s
  {
    if s == {} then []
    else
      LeastExists(s);
      LeastUnique(s);
      var x :| x in s && Least(s, x);
      [x] + Ascending(s - {x})
  }

  /** A least element put before a sorted sequence keeps it sorted. */
  lemma SortedCons(x: string, rest: seq<string>)
    requires Sorted(rest) && forall j | 0 <= j < |rest| :: Less(x, rest[j])
    ensures Sorted([x] + rest)
  {
    forall i, j | 0 <= i < j < |rest| + 1
      ensures Less(([x] + rest)[i], ([x] + rest)[j])
    {
      if i > 0 {
        assert ([x] + rest)[i] == rest[i - 1];
      }
      assert ([x] + rest)[j] == rest[j - 1];
    }
  }

  /** The neighbours come out strictly ascending. */
  lemma {:induction false} AscendingSorted(s: set<string>)
    ensures Sorted(Ascending(s))
    decreases s
  {
    if s != {} {
      LeastExists(s);
      LeastUnique(s);
      var x :| x in s && Least(s, x);
      var rest := Ascending(s - {x});
      assert Ascending(s) == [x] + rest;
      AscendingSorted(s - {x});
      forall j | 0 <= j < |rest|
        ensures Less(x, rest[j])
      {
        LessTotal(x, rest[j]);
      }
      SortedCons(x, rest);
    }
  }

  lemma HeadIn(s: seq<string>)
    requires s != []
    ensures s[0] in s
  {
  }

  /** A strictly ascending sequence is determined by its elements. */
  lemma {:induction false} SortedUnique(a: seq<string>, b: seq<string>)
    requires Sorted(a) && Sorted(b)
    requires forall y :: y in a <==> y in b
    ensures a == b
  {
    if a != [] {
      assert a[0] in b;
      assert b != [] && b[0] in a;
      var i :| 0 <= i < |a| && a[i] == b[0];
      var j :| 0 <= j < |b| && b[j] == a[0];
      assert i == 0 || j == 0 by {
        LessTotal(a[0], b[0]);
      }
      assert a[0] == b[0];
      LessTotal(a[0], a[0]);
      forall y
        ensures y in a[1..] <==> y in b[1..]
      {
        if y in a[1..] {
          var k :| 1 <= k < |a| && a[k] == y;
          assert Less(a[0], a[k]);
          assert y in b;
          var m :| 0 <= m < |b| && b[m] == y;
          assert m != 0;
          assert b[1..][m - 1] == y;
        }
        if y in b[1..] {
          var k :| 1 <= k < |b| && b[k] == y;
          assert Less(b[0], b[k]);
          assert y in a;
          var m :| 0 <= m < |a| && a[m] == y;
          assert m != 0;
          assert a[1..][m - 1] == y;
        }
      }
      SortedUnique(a[1..], b[1..]);
      assert a == [a[0]] + a[1..] && b == [b[0]] + b[1..];
    } else if b != [] {
      HeadIn(b);
      assert false;
    }
  }

  /** The lexeme ids among `ns`, in the order of `ns`. */
  function Lexemes(ns: seq<string>, kind: map<string, NodeType>): (r: seq<string>)
    requires forall t | t in ns :: t in kind
    ensures forall t :: t in r <==> t in ns && kind[t] == Lexeme
  {
    if ns == [] then []
    else
      var init := ns[..|ns| - 1];
      assert forall t | t in init :: t in ns;
      Lexemes(init, kind) + (if kind[ns[|ns| - 1]] == Lexeme then [ns[|ns| - 1]] else [])
  }

  lemma LexemesSnoc(ns: seq<string>, t: string, kind: map<string, NodeType>)
    requires forall u | u in ns :: u in kind
    requires t in kind
    ensures Lexemes(ns + [t], kind) == Lexemes(ns, kind) + (if kind[t] == Lexeme then [t] else [])
  {
    assert (ns + [t])[..|ns|] == ns;
  }

  /** What a line of the walk's output stands for: a numbered entry for a
      lexeme, possibly carrying its first cross-reference, or a
      continuation line carrying a further cross-reference. */
  datatype RawLine =
    | Entry(number: seq<nat>, id: string, ref: Option<string>)
    | Continuation(target: string)

  predicate HasRef(l: RawLine)
  {
    l.Continuation? || l.ref.Some?
  }

  function RefOf(l: RawLine): string
    requires HasRef(l)
  {
    if l.Continuation? then l.target else l.ref.value
  }

  predicate Numbered(raw: seq<RawLine>)
  {
    forall k | 0 <= k < |raw| && raw[k].Entry? :: |raw[k].number| > 0
  }

  /** The text the walk stores for a line. */
  function LineText(l: RawLine): string
    requires l.Entry? ==> |l.number| > 0
  {
    match l
    case Entry(n, id, None) => Dotted(n) + " " + id
    case Entry(n, id, Some(t)) => Dotted(n) + " " + id + Placeholder + t
    case Continuation(t) => Placeholder + t
  }

  function Texts(raw: seq<RawLine>): (r: seq<string>)
    requires Numbered(raw)
    ensures |r| == |raw|
  {
    if raw == [] then [] else Texts(raw[..|raw| - 1]) + [LineText(raw[|raw| - 1])]
  }

  /** A node's own lines are numbered when its number is not empty. */
  lemma OwnNumbered(kind: map<string, NodeType>, root: string, incoming: (string, string) -> seq<string>,
                    node: string, ns: seq<string>, c: seq<nat>)
    requires node in kind && (forall t | t in ns :: t in kind) && |c| > 0
    ensures Numbered(OwnLines(kind, root, incoming, node, ns, c))
  {
  }

  /** Lines that are each numbered stay so when joined. */
  lemma NumberedConcat(a: seq<RawLine>, b: seq<RawLine>)
    requires Numbered(a) && Numbered(b)
    ensures Numbered(a + b)
  {
    forall k | 0 <= k < |a + b| && (a + b)[k].Entry?
      ensures |(a + b)[k].number| > 0
    {
      if k >= |a| {
        assert (a + b)[k] == b[k - |a|];
      }
    }
  }

  /** The lines a lexeme contributes: its numbered entry, carrying the
      first cross-reference if there is one, then one continuation line
      per further cross-reference. */
  function Block(number: seq<nat>, id: string, refs: seq<string>): (b: seq<RawLine>)
    ensures |b| == if refs == [] then 1 else |refs|
    ensures b[0] == Entry(number, id, if refs == [] then None else Some(refs[0]))
    ensures forall k | 1 <= k < |b| :: b[k] == Continuation(refs[k])
  {
    if |refs| <= 1 then [Entry(number, id, if refs == [] then None else Some(refs[0]))]
    else Block(number, id, refs[..|refs| - 1]) + [Continuation(refs[|refs| - 1])]
  }

  lemma BlockSnoc(number: seq<nat>, id: string, refs: seq<string>, t: string)
    ensures Block(number, id, refs + [t]) ==
      if refs == [] then [Entry(number, id, Some(t))] else Block(number, id, refs) + [Continuation(t)]
  {
    assert (refs + [t])[..|refs|] == refs;
  }

  lemma PrefixSnoc(init: seq<string>, s: seq<string>, j: nat)
    requires j < |s|
    ensures init + s[..j + 1] == (init + s[..j]) + [s[j]]
  {
    assert s[..j + 1] == s[..j] + [s[j]];
  }

  /** The ids a sequence holds, as a set. */
  function Elems(s: seq<string>): set<string>
  {
    if s == [] then {} else Elems(s[..|s| - 1]) + {s[|s| - 1]}
  }

  lemma {:induction false} ElemsIn(s: seq<string>)
    ensures forall v :: v in Elems(s) <==> v in s
  {
    if s != [] {
      ElemsIn(s[..|s| - 1]);
      assert s == s[..|s| - 1] + [s[|s| - 1]];
    }
  }

  lemma ElemsSnoc(s: seq<string>, x: string)
    ensures Elems(s + [x]) == Elems(s) + {x}
  {
    assert (s + [x])[..|s|] == s;
  }

  /** The ids of the entries, in order. */
  function EntryIds(raw: seq<RawLine>): seq<string>
  {
    if raw == [] then []
    else
      var l := raw[|raw| - 1];
      EntryIds(raw[..|raw| - 1]) + (if l.Entry? then [l.id] else [])
  }

  lemma EntryIdsAppend(a: seq<RawLine>, l: RawLine)
    ensures EntryIds(a + [l]) == EntryIds(a) + (if l.Entry? then [l.id] else [])
  {
    assert (a + [l])[..|a|] == a;
  }

  lemma {:induction false} EntryInIds(raw: seq<RawLine>, k: nat)
    requires k < |raw| && raw[k].Entry?
    ensures raw[k].id in EntryIds(raw)
  {
    if k < |raw| - 1 {
      EntryInIds(raw[..|raw| - 1], k);
    }
  }

  predicate Injective(number: map<string, seq<nat>>)
  {
    forall u, v | u in number && v in number && u != v :: number[u] != number[v]
  }

  /** Every continuation line follows a line that carries a reference. */
  predicate Chained(raw: seq<RawLine>)
  {
    forall k | 0 <= k < |raw| && raw[k].Continuation? :: k > 0 && HasRef(raw[k - 1])
  }

  /** Marks exactly one entry: the block's own. */
  lemma {:induction false} EntryIdsBlock(number: seq<nat>, id: string, refs: seq<string>)
    ensures EntryIds(Block(number, id, refs)) == [id]
  {
    if |refs| > 1 {
      EntryIdsBlock(number, id, refs[..|refs| - 1]);
      EntryIdsAppend(Block(number, id, refs[..|refs| - 1]), Continuation(refs[|refs| - 1]));
    } else {
      EntryIdsAppend([], Block(number, id, refs)[0]);
    }
  }

  lemma {:induction false} EntryIdsConcat(a: seq<RawLine>, b: seq<RawLine>)
    ensures EntryIds(a + b) == EntryIds(a) + EntryIds(b)
    decreases |b|
  {
    if b == [] {
      assert a + b == a;
    } else {
      var init := b[..|b| - 1];
      var l := b[|b| - 1];
      var tail := if l.Entry? then [l.id] else [];
      assert b == init + [l];
      calc {
        EntryIds(a + b);
        { assert a + b == (a + init) + [l]; }
        EntryIds((a + init) + [l]);
        { EntryIdsAppend(a + init, l); }
        EntryIds(a + init) + tail;
        { EntryIdsConcat(a, init); }
        EntryIds(a) + EntryIds(init) + tail;
        { EntryIdsAppend(init, l); }
        EntryIds(a) + EntryIds(b);
      }
    }
  }

  /** Every entry of `raw` carries the number `number` gives its id. */
  ghost predicate EntriesNumbered(raw: seq<RawLine>, number: map<string, seq<nat>>)
  {
    forall k | 0 <= k < |raw| && raw[k].Entry? :: raw[k].id in number && raw[k].number == number[raw[k].id]
  }

  lemma BlockNumbered(c: seq<nat>, id: string, refs: seq<string>, number: map<string, seq<nat>>)
    requires id in number && number[id] == c
    ensures EntriesNumbered(Block(c, id, refs), number)
  {
  }

  lemma EntriesNumberedConcat(a: seq<RawLine>, b: seq<RawLine>, number: map<string, seq<nat>>)
    requires EntriesNumbered(a, number) && EntriesNumbered(b, number)
    ensures EntriesNumbered(a + b, number)
  {
    var r := a + b;
    forall k | 0 <= k < |r| && r[k].Entry?
      ensures r[k].id in number && r[k].number == number[r[k].id]
    {
      if k >= |a| {
        assert r[k] == b[k - |a|];
      }
    }
  }

  lemma ChainedConcat(a: seq<RawLine>, b: seq<RawLine>)
    requires Chained(a) && Chained(b) && (b != [] ==> b[0].Entry?)
    ensures Chained(a + b)
  {
    var r := a + b;
    forall k | 0 <= k < |r| && r[k].Continuation?
      ensures k > 0 && HasRef(r[k - 1])
    {
      if k >= |a| {
        assert r[k] == b[k - |a|];
        assert r[k - 1] == b[k - |a| - 1];
      }
    }
  }

  lemma BlockChained(number: seq<nat>, id: string, refs: seq<string>)
    ensures Chained(Block(number, id, refs))
  {
  }

  /** Distinct ids have distinct lexeme subsequences. */
  lemma {:induction false} LexemesDistinct(ns: seq<string>, kind: map<string, NodeType>)
    requires forall t | t in ns :: t in kind
    requires Distinct(ns)
    ensures Distinct(Lexemes(ns, kind))
  {
    if ns != [] {
      var init := ns[..|ns| - 1];
      assert forall t | t in init :: t in ns;
      assert ns[|ns| - 1] !in init;
      LexemesDistinct(init, kind);
    }
  }

  lemma TextsSnoc(raw: seq<RawLine>, l: RawLine)
    requires Numbered(raw) && (l.Entry? ==> |l.number| > 0)
    ensures Texts(raw + [l]) == Texts(raw) + [LineText(l)]
  {
    assert (raw + [l])[..|raw|] == raw;
  }

  /** Expanding an unvisited node keeps the expansion order free of
      repeats and the outline numbers distinct. */
  lemma EnterKeeps(order: seq<string>, visited: set<string>, number: map<string, seq<nat>>,
                   node: string, c: seq<nat>)
    requires Distinct(order) && visited == Elems(order) && node !in visited
    requires Injective(number) && Unused(c, number)
    ensures Distinct(order + [node]) && visited + {node} == Elems(order + [node])
    ensures Injective(number[node := c])
  {
    ElemsIn(order);
    ElemsSnoc(order, node);
    var o := order + [node];
    forall i, j | 0 <= i < j < |o|
      ensures o[i] != o[j]
    {
      if j == |order| {
        assert o[i] == order[i];
      } else {
        assert o[i] == order[i] && o[j] == order[j];
      }
    }
    var n := number[node := c];
    forall u, v | u in n && v in n && u != v
      ensures n[u] != n[v]
    {
      if u == node {
        assert c <= c;
      } else if v == node {
        assert c <= c;
      }
    }
  }

  /** Every number in `before` is still there, unchanged. */
  ghost predicate Kept(before: map<string, seq<nat>>, after: map<string, seq<nat>>)
  {
    forall v | v in before :: v in after && after[v] == before[v]
  }

  /** No outline number handed out so far starts with `c`. */
  predicate Unused(c: seq<nat>, number: map<string, seq<nat>>)
  {
    forall v | v in number :: !(c <= number[v])
  }

  /** `n` numbers a node strictly inside the subtree numbered `c`. */
  predicate Below(n: seq<nat>, c: seq<nat>)
  {
    |c| < |n| && n[..|c|] == c
  }

  lemma BelowStep(n: seq<nat>, c: seq<nat>, x: nat)
    ensures c + [x] <= n ==> Below(n, c) && c <= n && n[|c|] == x
  {
    if c + [x] <= n {
      assert n[..|c| + 1] == c + [x];
      assert n[..|c| + 1][..|c|] == n[..|c|];
    }
  }

  /** The numbers handed out since `before` all lie in the subtree `c`,
      at child positions 1 to `k`, and the earlier ones are kept. */
  ghost predicate SubtreeNumbered(before: map<string, seq<nat>>, number: map<string, seq<nat>>,
                                  c: seq<nat>, k: nat)
  {
    && Kept(before, number)
    && (forall v | v in number && v !in before :: Below(number[v], c) && 1 <= number[v][|c|] <= k)
  }

  lemma SubtreePrefix(before: map<string, seq<nat>>, number: map<string, seq<nat>>, c: seq<nat>, k: nat)
    requires SubtreeNumbered(before, number, c, k)
    ensures forall v | v in number && v !in before :: c <= number[v]
  {
    forall v | v in number && v !in before
      ensures c <= number[v]
    {
      assert number[v][..|c|] == c;
    }
  }

  /** The counters of the next child are a prefix of no number yet. */
  lemma NextUnused(before: map<string, seq<nat>>, number: map<string, seq<nat>>,
                   node: string, c: seq<nat>, k: nat)
    requires forall v | v in before && v != node :: !(c <= before[v])
    requires node in before && before[node] == c
    requires SubtreeNumbered(before, number, c, k)
    ensures Unused(c + [k + 1], number)
  {
    forall v | v in number
      ensures !(c + [k + 1] <= number[v])
    {
      BelowStep(number[v], c, k + 1);
      if v in before {
        assert number[v] == before[v];
      } else {
        assert number[v][|c|] <= k;
      }
    }
  }

  /** A child subtree numbered under `c + [k + 1]` extends the subtree
      numbering by one position. */
  lemma SubtreeGrow(before: map<string, seq<nat>>, mid: map<string, seq<nat>>,
                    after: map<string, seq<nat>>, c: seq<nat>, k: nat)
    requires SubtreeNumbered(before, mid, c, k)
    requires Kept(mid, after)
    requires forall v | v in after && v !in mid :: c + [k + 1] <= after[v]
    ensures SubtreeNumbered(before, after, c, k + 1)
  {
    forall v | v in after && v !in mid
      ensures Below(after[v], c) && after[v][|c|] == k + 1
    {
      BelowStep(after[v], c, k + 1);
    }
  }

  /** The search in `stringify` for a neighbour not yet visited, which
      decides whether a 0 is pushed onto the counters (AnyUnseenIff: some
      element of `ns` is outside `seen`). */
  predicate AnyUnseen(ns: seq<string>, seen: set<string>)
  {
    |ns| > 0 && (ns[0] !in seen || AnyUnseen(ns[1..], seen))
  }

  lemma {:induction false} AnyUnseenIff(ns: seq<string>, seen: set<string>)
    ensures AnyUnseen(ns, seen) <==> exists t | t in ns :: t !in seen
  {
    if |ns| > 0 {
      AnyUnseenIff(ns[1..], seen);
      assert ns == [ns[0]] + ns[1..];
    }
  }

  /** The nesting rule: a lexeme other than the root does not nest into
      another lexeme. */
  predicate Nests(kind: map<string, NodeType>, root: string, node: string, t: string)
  {
    root == node || !(IsLexeme(kind, node) && IsLexeme(kind, t))
  }

  /** What the loop over the sorted neighbours of `node` has done after
      its first `i` steps: each of those neighbours that may nest is
      visited, and `children` are the ones the loop expanded itself, in
      ascending order, numbered `c` extended by 1, 2, ... (`pos` holds
      their indices in `sorted`). */
  ghost predicate Walked(kind: map<string, NodeType>, root: string, node: string, sorted: seq<string>,
                         i: nat, c: seq<nat>, visited0: set<string>, number0: map<string, seq<nat>>,
                         visited: set<string>, number: map<string, seq<nat>>,
                         children: seq<string>, pos: seq<nat>)
  {
    && i <= |sorted|
    && (forall j | 0 <= j < i && Nests(kind, root, node, sorted[j]) :: sorted[j] in visited)
    && |pos| == |children|
    && (forall j | 0 <= j < |children| :: pos[j] < i && sorted[pos[j]] == children[j])
    && (forall j | 0 <= j < |children| ::
          && Nests(kind, root, node, children[j]) && children[j] !in visited0
          && children[j] in number && number[children[j]] == c + [j + 1])
    && Sorted(children)
    && SubtreeNumbered(number0, number, c, |children|)
  }

  /** Once every neighbour is walked: each nesting one is visited, and each
      child is one of the neighbours. */
  lemma WalkedDone(kind: map<string, NodeType>, root: string, node: string, sorted: seq<string>,
                   c: seq<nat>, visited0: set<string>, number0: map<string, seq<nat>>,
                   visited: set<string>, number: map<string, seq<nat>>,
                   children: seq<string>, pos: seq<nat>)
    requires Walked(kind, root, node, sorted, |sorted|, c, visited0, number0, visited, number, children, pos)
    ensures forall t | t in sorted && Nests(kind, root, node, t) :: t in visited
    ensures forall j | 0 <= j < |children| :: children[j] in sorted
  {
    forall t | t in sorted && Nests(kind, root, node, t)
      ensures t in visited
    {
      var j :| 0 <= j < |sorted| && sorted[j] == t;
    }
  }

  lemma WalkedStart(kind: map<string, NodeType>, root: string, node: string, sorted: seq<string>,
                    c: seq<nat>, visited0: set<string>, number0: map<string, seq<nat>>)
    ensures Walked(kind, root, node, sorted, 0, c, visited0, number0, visited0, number0, [], [])
  {
  }

  /** A step that expands nothing. */
  lemma WalkedSkip(kind: map<string, NodeType>, root: string, node: string, sorted: seq<string>,
                   i: nat, c: seq<nat>, visited0: set<string>, number0: map<string, seq<nat>>,
                   visited: set<string>, number: map<string, seq<nat>>,
                   children: seq<string>, pos: seq<nat>)
    requires Walked(kind, root, node, sorted, i, c, visited0, number0, visited, number, children, pos)
    requires i < |sorted| && (Nests(kind, root, node, sorted[i]) ==> sorted[i] in visited)
    ensures Walked(kind, root, node, sorted, i + 1, c, visited0, number0, visited, number, children, pos)
  {
  }

  /** A step that expands `sorted[i]` as the next child. */
  lemma WalkedStep(kind: map<string, NodeType>, root: string, node: string, sorted: seq<string>,
                   i: nat, c: seq<nat>, visited0: set<string>, number0: map<string, seq<nat>>,
                   visited: set<string>, number: map<string, seq<nat>>,
                   visited': set<string>, number': map<string, seq<nat>>,
                   children: seq<string>, pos: seq<nat>)
    requires Walked(kind, root, node, sorted, i, c, visited0, number0, visited, number, children, pos)
    requires Sorted(sorted) && i < |sorted|
    requires Nests(kind, root, node, sorted[i]) && sorted[i] !in visited && visited0 <= visited
    requires visited <= visited' && sorted[i] in visited' && Kept(number, number')
    requires sorted[i] in number' && number'[sorted[i]] == c + [|children| + 1]
    requires SubtreeNumbered(number0, number', c, |children| + 1)
    ensures Walked(kind, root, node, sorted, i + 1, c, visited0, number0, visited', number',
                   children + [sorted[i]], pos + [i])
  {
    var t := sorted[i];
    var children' := children + [t];
    forall j | 0 <= j < i + 1 && Nests(kind, root, node, sorted[j])
      ensures sorted[j] in visited'
    {
      if j < i {
        assert sorted[j] in visited;
      }
    }
    forall j | 0 <= j < |children|
      ensures children'[j] == children[j] && Less(children'[j], t)
    {
      assert sorted[pos[j]] == children[j];
    }
  }

  /** What expanding an unvisited `node` at outline number `c` leaves
      behind: `node` was expanded next, numbered `c`; everything expanded
      since lies in its subtree; every neighbour that may nest is visited;
      and `children`, the neighbours it expanded itself, are in ascending
      order and numbered `c` extended by 1, 2, ... */
  ghost predicate Expanded(adj: map<string, set<string>>, kind: map<string, NodeType>, root: string,
                           node: string, c: seq<nat>, children: seq<string>,
                           visited0: set<string>, order0: seq<string>, number0: map<string, seq<nat>>,
                           visited: set<string>, order: seq<string>, number: map<string, seq<nat>>)
    requires node in adj
  {
    && |order0| < |order| && order[|order0|] == node
    && node in number && number[node] == c
    && (forall v | v in number && v !in number0 :: c <= number[v])
    && (forall t | t in adj[node] && Nests(kind, root, node, t) :: t in visited)
    && Sorted(children)
    && (forall j | 0 <= j < |children| ::
          && children[j] in adj[node] && Nests(kind, root, node, children[j]) && children[j] !in visited0
          && children[j] in number && number[children[j]] == c + [j + 1])
  }

  /** The facts the loop over the neighbours leaves behind, once the node
      itself was marked, make up an expansion. */
  lemma ExpandedIntro(adj: map<string, set<string>>, kind: map<string, NodeType>, root: string,
                      node: string, c: seq<nat>, sorted: seq<string>, children: seq<string>,
                      visited0: set<string>, order0: seq<string>, number0: map<string, seq<nat>>,
                      visited: set<string>, order: seq<string>, number: map<string, seq<nat>>)
    requires node in adj && node !in number0 && (forall t :: t in sorted <==> t in adj[node])
    requires order0 + [node] <= order
    requires SubtreeNumbered(number0[node := c], number, c, |children|)
    requires forall t | t in sorted && Nests(kind, root, node, t) :: t in visited
    requires Sorted(children)
    requires forall j | 0 <= j < |children| ::
      && children[j] in sorted && Nests(kind, root, node, children[j]) && children[j] !in visited0 + {node}
      && children[j] in number && number[children[j]] == c + [j + 1]
    ensures Expanded(adj, kind, root, node, c, children, visited0, order0, number0, visited, order, number)
  {
    assert order[|order0|] == (order0 + [node])[|order0|];
    SubtreePrefix(number0[node := c], number, c, |children|);
  }

  /** A non-root lexeme's cross-references: its lexeme neighbours in
      ascending order, then what the incoming-lexemes query returns. */
  function Refs(kind: map<string, NodeType>, root: string, incoming: (string, string) -> seq<string>,
                node: string, ns: seq<string>): seq<string>
    requires forall t | t in ns :: t in kind
  {
    Lexemes(ns, kind) + incoming(node, root)
  }

  /** The lines a node adds when it is expanded with outline number `c`
      and sorted neighbours `ns`: none for a division or opposition, a
      numbered entry for a lexeme, with cross-references unless it is
      the root. */
  function OwnLines(kind: map<string, NodeType>, root: string, incoming: (string, string) -> seq<string>,
                    node: string, ns: seq<string>, c: seq<nat>): seq<RawLine>
    requires node in kind && forall t | t in ns :: t in kind
  {
    if kind[node] != Lexeme then []
    else Block(c, node, if node == root then [] else Refs(kind, root, incoming, node, ns))
  }

  /** The nodes visited and the lines written by a walk. */
  /** Numbers kept by marking a new node and then numbering its subtree
      are kept overall. */
  lemma KeptAcross(n0: map<string, seq<nat>>, n1: map<string, seq<nat>>, n2: map<string, seq<nat>>,
                   node: string, c: seq<nat>, k: nat)
    requires node !in n0 && n1 == n0[node := c] && SubtreeNumbered(n1, n2, c, k)
    ensures Kept(n0, n2) && node in n2 && n2[node] == c
  {
  }

  lemma Appended<T>(a: seq<T>, b: seq<T>, c: seq<T>, ab: seq<T>, abc: seq<T>)
    requires ab == a + b && abc == ab + c
    ensures abc == a + (b + c)
  {
  }

  /** Raising the last counter of `c + [k]` gives `c + [k + 1]`. */
  lemma RaisedLast(counters: seq<nat>, c: seq<nat>, k: nat)
    requires counters == c + [k]
    ensures counters[|counters| - 1 := k + 1] == c + [k + 1] == Raised(counters)
  {
  }

  datatype Walk = Walk(visited: set<string>, lines: seq<RawLine>)

  /** The walk as a plain recursion, with the outline number passed by
      value: the reference the Walker is proved against. A visited node
      adds nothing. Otherwise the node is visited and numbered `c` and
      writes its own lines; `c` gains a trailing 0 if some neighbour is
      still unvisited; then its sorted neighbours are walked. */
  function Expansion(adj: map<string, set<string>>, kind: map<string, NodeType>, root: string,
                     incoming: (string, string) -> seq<string>,
                     node: string, c: seq<nat>, visited: set<string>): (w: Walk)
    requires GraphOk(adj, kind) && node in adj && |c| > 0
    ensures visited <= w.visited && node in w.visited
    ensures Numbered(w.lines)
    decreases adj.Keys - visited, 0, 0
  {
    if node in visited then Walk(visited, [])
    else
      var sorted := Ascending(adj[node]);
      var seen := visited + {node};
      var counters := if AnyUnseen(sorted, seen) then c + [0] else c;
      var kids := Children(adj, kind, root, incoming, node, sorted, 0, counters, seen);
      OwnNumbered(kind, root, incoming, node, sorted, c);
      NumberedConcat(OwnLines(kind, root, incoming, node, sorted, c), kids.lines);
      Walk(kids.visited, OwnLines(kind, root, incoming, node, sorted, c) + kids.lines)
  }

  /** The walk over `sorted[i..]`, the sorted neighbours of `node`, with
      the counters at `counters`: a neighbour that may nest and is still
      unvisited when reached raises the last counter by one and is
      expanded with the result, which the later neighbours start from. */
  function Children(adj: map<string, set<string>>, kind: map<string, NodeType>, root: string,
                    incoming: (string, string) -> seq<string>,
                    node: string, sorted: seq<string>, i: nat, counters: seq<nat>,
                    visited: set<string>): (w: Walk)
    requires GraphOk(adj, kind) && i <= |sorted| && |counters| > 0
    requires forall t | t in sorted :: t in adj
    ensures visited <= w.visited
    ensures Numbered(w.lines)
    decreases adj.Keys - visited, 1, |sorted| - i
  {
    if i == |sorted| then Walk(visited, [])
    else
      var t := sorted[i];
      if Nests(kind, root, node, t) && t !in visited then
        var next := Raised(counters);
        var sub := Expansion(adj, kind, root, incoming, t, next, visited);
        var rest := Children(adj, kind, root, incoming, node, sorted, i + 1, next, sub.visited);
        Walk(rest.visited, sub.lines + rest.lines)
      else
        Children(adj, kind, root, incoming, node, sorted, i + 1, counters, visited)
  }

  /** `counters.set(n, counters.get(n) + 1)` for the last index n. */
  function Raised(counters: seq<nat>): (r: seq<nat>)
    requires |counters| > 0
    ensures |r| == |counters| && r[..|r| - 1] == counters[..|counters| - 1]
    ensures r[|r| - 1] == counters[|counters| - 1] + 1
  {
    counters[..|counters| - 1] + [counters[|counters| - 1] + 1]
  }

  /** One expansion of an unvisited node: its own lines, then the walk
      over its sorted neighbours from the counters it leaves. */
  lemma ExpansionStep(adj: map<string, set<string>>, kind: map<string, NodeType>, root: string,
                      incoming: (string, string) -> seq<string>,
                      node: string, c: seq<nat>, visited: set<string>, counters: seq<nat>)
    requires GraphOk(adj, kind) && node in adj && |c| > 0 && node !in visited
    requires counters == if AnyUnseen(Ascending(adj[node]), visited + {node}) then c + [0] else c
    ensures var sorted := Ascending(adj[node]);
      var kids := Children(adj, kind, root, incoming, node, sorted, 0, counters, visited + {node});
      Expansion(adj, kind, root, incoming, node, c, visited) ==
        Walk(kids.visited, OwnLines(kind, root, incoming, node, sorted, c) + kids.lines)
  {
  }

  /** One step of the walk over the sorted neighbours. */
  lemma ChildrenNext(adj: map<string, set<string>>, kind: map<string, NodeType>, root: string,
                     incoming: (string, string) -> seq<string>,
                     node: string, sorted: seq<string>, i: nat, counters: seq<nat>, visited: set<string>)
    requires GraphOk(adj, kind) && i < |sorted| && |counters| > 0
    requires forall t | t in sorted :: t in adj
    ensures var t := sorted[i];
      Children(adj, kind, root, incoming, node, sorted, i, counters, visited) ==
        if Nests(kind, root, node, t) && t !in visited then
          var sub := Expansion(adj, kind, root, incoming, t, Raised(counters), visited);
          var rest := Children(adj, kind, root, incoming, node, sorted, i + 1, Raised(counters), sub.visited);
          Walk(rest.visited, sub.lines + rest.lines)
        else
          Children(adj, kind, root, incoming, node, sorted, i + 1, counters, visited)
  {
  }

  /** The walk's state, shared by all the recursive calls of one render. */
  class Walker {
    const adj: map<string, set<string>>
    const kind: map<string, NodeType>
    const root: string
    /** NodeService.findIncomingLexemes, a query this model takes as given. */
    const incoming: (string, string) -> seq<string>

    var visited: set<string>
    var lines: seq<string>
    var counters: seq<nat>

    /** The expanded nodes, in the order they were expanded. */
    ghost var order: seq<string>
    /** What each line of `lines` stands for. */
    ghost var raw: seq<RawLine>
    /** The outline number each expanded node was given. */
    ghost var number: map<string, seq<nat>>

    /** The visited nodes, their expansion order and their numbers. */
    ghost predicate Tree()
      reads this`visited, this`number, this`order
    {
      && GraphOk(adj, kind)
      && visited <= adj.Keys
      && number.Keys == visited
      && (forall v | v in number :: |number[v]| > 0)
      && Injective(number)
      && Distinct(order) && visited == Elems(order)
    }

    /** The lines are the text of what they stand for. */
    ghost predicate Text()
      reads this`raw, this`lines
    {
      Numbered(raw) && lines == Texts(raw)
    }

    /** What holds at every step, also while a lexeme's lines are being
        added. */
    ghost predicate Core()
      reads this
    {
      Tree() && Text() && |counters| > 0
    }

    /** Between expansions the lines are exactly those of the expanded
        nodes, in expansion order. */
    ghost predicate Valid()
      reads this`visited, this`number, this`order, this`raw, this`lines
    {
      Tree() && Text() && raw == Flat(order, number)
    }

    constructor (adj: map<string, set<string>>, kind: map<string, NodeType>, root: string,
                 incoming: (string, string) -> seq<string>)
      requires GraphOk(adj, kind)
      ensures Valid()
      ensures this.adj == adj && this.kind == kind && this.root == root && this.incoming == incoming
      ensures visited == {} && lines == [] && counters == [1] && order == [] && raw == [] && number == map[]
    {
      this.adj := adj;
      this.kind := kind;
      this.root := root;
      this.incoming := incoming;
      visited := {};
      lines := [];
      counters := [1];
      order := [];
      raw := [];
      number := map[];
    }

    /** The lines of a walk that expanded the nodes of `order`, in order. */
    ghost function Flat(order: seq<string>, number: map<string, seq<nat>>): seq<RawLine>
      requires GraphOk(adj, kind)
      requires Elems(order) <= adj.Keys && Elems(order) <= number.Keys
    {
      if order == [] then []
      else
        var v := order[|order| - 1];
        Flat(order[..|order| - 1], number) + OwnLines(kind, root, incoming, v, Ascending(adj[v]), number[v])
    }

    lemma {:induction false} FlatKept(order: seq<string>, n1: map<string, seq<nat>>, n2: map<string, seq<nat>>)
      requires GraphOk(adj, kind)
      requires Elems(order) <= adj.Keys
      requires forall v | v in Elems(order) :: v in n1 && v in n2 && n1[v] == n2[v]
      ensures Flat(order, n1) == Flat(order, n2)
    {
      if order != [] {
        FlatKept(order[..|order| - 1], n1, n2);
      }
    }

    /** Expanding one more node, with a fresh number, appends its own
        lines. */
    lemma FlatStep(order: seq<string>, v: string, number: map<string, seq<nat>>, c: seq<nat>)
      requires GraphOk(adj, kind) && v in adj
      requires Elems(order) <= adj.Keys && Elems(order) <= number.Keys && v !in Elems(order)
      ensures Elems(order + [v]) <= adj.Keys && Elems(order + [v]) <= number[v := c].Keys
      ensures Flat(order + [v], number[v := c]) == Flat(order, number) + OwnLines(kind, root, incoming, v, Ascending(adj[v]), c)
    {
      ElemsSnoc(order, v);
      FlatKept(order, number, number[v := c]);
      FlatSnoc(order, v, number[v := c]);
    }

    lemma FlatSnoc(order: seq<string>, v: string, number: map<string, seq<nat>>)
      requires GraphOk(adj, kind)
      requires Elems(order + [v]) <= adj.Keys && Elems(order + [v]) <= number.Keys
      ensures Flat(order + [v], number) == Flat(order, number) + OwnLines(kind, root, incoming, v, Ascending(adj[v]), number[v])
    {
      assert (order + [v])[..|order|] == order;
    }

    /** The entries of the walk's lines name the lexemes it expanded, in
        expansion order. */
    lemma {:induction false} FlatEntryIds(order: seq<string>, number: map<string, seq<nat>>)
      requires GraphOk(adj, kind)
      requires forall v | v in order :: v in kind
      requires Elems(order) <= adj.Keys && Elems(order) <= number.Keys
      ensures EntryIds(Flat(order, number)) == Lexemes(order, kind)
    {
      if order != [] {
        var init := order[..|order| - 1];
        var v := order[|order| - 1];
        FlatEntryIds(init, number);
        var own := OwnLines(kind, root, incoming, v, Ascending(adj[v]), number[v]);
        EntryIdsConcat(Flat(init, number), own);
        if kind[v] == Lexeme {
          EntryIdsBlock(number[v], v, if v == root then [] else Refs(kind, root, incoming, v, Ascending(adj[v])));
        }
      }
    }

    /** Each entry carries the outline number its node was given. */
    lemma {:induction false} FlatNumbers(order: seq<string>, number: map<string, seq<nat>>)
      requires GraphOk(adj, kind)
      requires Elems(order) <= adj.Keys && Elems(order) <= number.Keys
      ensures EntriesNumbered(Flat(order, number), number)
    {
      if order != [] {
        var init := order[..|order| - 1];
        var v := order[|order| - 1];
        FlatNumbers(init, number);
        var own := OwnLines(kind, root, incoming, v, Ascending(adj[v]), number[v]);
        assert EntriesNumbered(own, number) by {
          if kind[v] == Lexeme {
            BlockNumbered(number[v], v, if v == root then [] else Refs(kind, root, incoming, v, Ascending(adj[v])), number);
          }
        }
        EntriesNumberedConcat(Flat(init, number), own, number);
      }
    }

    /** Continuation lines only follow lines with a cross-reference. */
    lemma {:induction false} FlatChained(order: seq<string>, number: map<string, seq<nat>>)
      requires GraphOk(adj, kind)
      requires Elems(order) <= adj.Keys && Elems(order) <= number.Keys
      ensures Chained(Flat(order, number))
    {
      if order != [] {
        var init := order[..|order| - 1];
        var v := order[|order| - 1];
        FlatChained(init, number);
        if kind[v] == Lexeme {
          BlockChained(number[v], v, if v == root then [] else Refs(kind, root, incoming, v, Ascending(adj[v])));
        }
        ChainedConcat(Flat(init, number), OwnLines(kind, root, incoming, v, Ascending(adj[v]), number[v]));
      }
    }

    /** Between expansions the entries name the expanded lexemes in
        order, once each, with their numbers, and continuation lines
        follow lines with a reference. */
    lemma Facts()
      requires Valid()
      ensures Distinct(order) && forall v | v in order :: v in kind
      ensures EntryIds(raw) == Lexemes(order, kind) && Distinct(EntryIds(raw))
      ensures EntriesNumbered(raw, number) && Injective(number) && Chained(raw)
    {
      ElemsIn(order);
      FlatEntryIds(order, number);
      FlatNumbers(order, number);
      FlatChained(order, number);
      LexemesDistinct(order, kind);
    }

    /** GraphService.stringify: expands `node` unless it has been visited,
        then walks its qualifying neighbours in ascending id order, giving
        the k-th of them the outline number of `node` extended by k. */
    method Stringify(node: string) returns (ghost children: seq<string>)
      requires Valid() && node in adj && |counters| > 0
      requires node !in visited ==> Unused(counters, number)
      modifies this`visited, this`number, this`order, this`lines, this`raw, this`counters
      decreases adj.Keys - visited, 1
      ensures Valid()
      ensures old(visited) <= visited && node in visited
      ensures old(order) <= order && Kept(old(number), number)
      ensures node in old(visited) ==>
        visited == old(visited) && order == old(order) && number == old(number)
        && lines == old(lines) && counters == old(counters)
      ensures node !in old(visited) ==> Expanded(adj, kind, root, node, old(counters), children, old(visited), old(order), old(number),
                                             visited, order, number)
      ensures var w := Expansion(adj, kind, root, incoming, node, old(counters), old(visited));
        visited == w.visited && raw == old(raw) + w.lines
    {
      children := [];
      if node in visited {
        return;
      }
      children := Expand(node);
    }

    /** The body of `stringify` for a node not yet visited. */
    method Expand(node: string) returns (ghost children: seq<string>)
      requires Valid() && node in adj && node !in visited
      requires Unused(counters, number) && |counters| > 0
      modifies this`visited, this`number, this`order, this`lines, this`raw, this`counters
      decreases adj.Keys - visited, 0
      ensures Valid()
      ensures old(visited) <= visited && node in visited
      ensures old(order) <= order && Kept(old(number), number)
      ensures Expanded(adj, kind, root, node, old(counters), children, old(visited), old(order), old(number),
                                             visited, order, number)
      ensures var w := Expansion(adj, kind, root, incoming, node, old(counters), old(visited));
        visited == w.visited && raw == old(raw) + w.lines
    {
      ghost var c := counters;
      var sorted, pushed := Open(node);
      ghost var number1 := number;
      ghost var raw1 := raw;
      ghost var own := OwnLines(kind, root, incoming, node, sorted, c);
      ghost var kids := Children(adj, kind, root, incoming, node, sorted, 0, counters, visited);
      AnyUnseenIff(sorted, old(visited) + {node});
      ExpansionStep(adj, kind, root, incoming, node, c, old(visited), counters);
      AscendingSorted(adj[node]);
      children := WalkChildren(node, sorted, pushed, c);
      Appended(old(raw), own, kids.lines, raw1, raw);
      ExpandedIntro(adj, kind, root, node, c, sorted, children, old(visited), old(order), old(number),
                    visited, order, number);
      KeptAcross(old(number), number1, number, node, c, |children|);
    }

    /** The start of `stringify` for an unvisited node: it is marked, and
        a 0 is pushed onto the counters if some neighbour is unvisited. */
    method Open(node: string) returns (sorted: seq<string>, pushed: bool)
      requires Valid() && node in adj && node !in visited
      requires Unused(counters, number) && |counters| > 0
      modifies this`visited, this`number, this`order, this`lines, this`raw, this`counters
      ensures Valid()
      ensures visited == old(visited) + {node} && order == old(order) + [node]
      ensures number == old(number)[node := old(counters)]
      ensures sorted == Ascending(adj[node])
      ensures pushed ==> counters == old(counters) + [0]
      ensures !pushed ==> counters == old(counters) && forall t | t in sorted :: t in visited
      ensures pushed <==> exists t | t in sorted :: t !in visited
      ensures raw == old(raw) + OwnLines(kind, root, incoming, node, sorted, old(counters))
    {
      sorted := Ascending(adj[node]);
      Mark(node, sorted);
      pushed := PushIfUnvisited(sorted);
    }

    /** Marks an unvisited node as visited, giving it the current counters
        as its outline number, and adds its lines: for a lexeme its
        numbered line and, unless it is the root, its cross-references. */
    method Mark(node: string, sorted: seq<string>)
      requires Valid() && node in adj && node !in visited
      requires Unused(counters, number) && |counters| > 0
      requires sorted == Ascending(adj[node])
      modifies this`visited, this`number, this`order, this`lines, this`raw
      ensures Valid()
      ensures visited == old(visited) + {node} && order == old(order) + [node]
      ensures number == old(number)[node := counters]
      ensures raw == old(raw) + OwnLines(kind, root, incoming, node, sorted, counters)
    {
      AddOwnLines(node, sorted);
      FlatStep(old(order), node, old(number), counters);
    }

    /** Visits `node` and adds the lines it contributes. */
    method AddOwnLines(node: string, sorted: seq<string>)
      requires Core() && node in adj && node !in visited
      requires Unused(counters, number)
      requires forall t | t in sorted :: t in kind
      modifies this`visited, this`number, this`order, this`lines, this`raw
      ensures Core()
      ensures visited == old(visited) + {node} && order == old(order) + [node]
      ensures number == old(number)[node := counters]
      ensures raw == old(raw) + OwnLines(kind, root, incoming, node, sorted, counters)
    {
      Enter(node);
      if kind[node] == Lexeme && node != root {
        var first := AddNeighbourRefs(old(raw), node, sorted);
        AddIncomingRefs(old(raw), node, Lexemes(sorted, kind), first);
      }
    }

    /** The start of an expansion: the node is visited and numbered, and a
        lexeme's numbered line is added. */
    method Enter(node: string)
      requires Core() && node in adj && node !in visited
      requires Unused(counters, number)
      modifies this`visited, this`number, this`order, this`lines, this`raw
      ensures Core()
      ensures visited == old(visited) + {node} && order == old(order) + [node]
      ensures number == old(number)[node := counters]
      ensures raw == old(raw) + if kind[node] == Lexeme then Block(counters, node, []) else []
    {
      Visit(node);
      if kind[node] == Lexeme {
        AddEntry(node);
      }
    }

    /** `visitedNodes.add(node.getId())`, with the node's outline number
        recorded beside it. */
    method Visit(node: string)
      requires Tree() && node in adj && node !in visited
      requires Unused(counters, number) && |counters| > 0
      modifies this`visited, this`number, this`order
      ensures Tree()
      ensures visited == old(visited) + {node} && order == old(order) + [node]
      ensures number == old(number)[node := counters]
    {
      EnterKeeps(order, visited, number, node, counters);
      visited := visited + {node};
      number := number[node := counters];
      order := order + [node];
    }

    /** `lines.add(formatCounters(counters) + " " + node.getId())`. */
    method AddEntry(node: string)
      requires Text() && |counters| > 0
      modifies this`lines, this`raw
      ensures Text()
      ensures raw == old(raw) + [Entry(counters, node, None)]
    {
      var numbering := FormatCounters(counters);
      TextsSnoc(raw, Entry(counters, node, None));
      lines := lines + [numbering + " " + node];
      raw := raw + [Entry(counters, node, None)];
    }

    /** The first loop over a lexeme's neighbours: each lexeme neighbour,
        in the given order, becomes a cross-reference. */
    method AddNeighbourRefs(ghost base: seq<RawLine>, node: string, ns: seq<string>) returns (first: bool)
      requires Core()
      requires raw == base + Block(counters, node, [])
      requires forall t | t in ns :: t in kind
      modifies this`lines, this`raw
      ensures Core()
      ensures raw == base + Block(counters, node, Lexemes(ns, kind))
      ensures first <==> Lexemes(ns, kind) == []
    {
      first := true;
      ghost var added: seq<string> := [];
      for i := 0 to |ns|
        invariant Core()
        invariant added == Lexemes(ns[..i], kind)
        invariant raw == base + Block(counters, node, added)
        invariant first <==> added == []
      {
        var t := ns[i];
        assert ns[..i + 1] == ns[..i] + [t];
        LexemesSnoc(ns[..i], t, kind);
        if kind[t] == Lexeme {
          AddRef(base, added, node, t, first);
          added := added + [t];
          first := false;
        }
      }
      assert ns[..|ns|] == ns;
    }

    /** The second loop: every lexeme the incoming-lexemes query returns
        becomes a cross-reference after those already added. */
    method AddIncomingRefs(ghost base: seq<RawLine>, node: string, ghost done: seq<string>, first: bool)
      requires Core()
      requires raw == base + Block(counters, node, done)
      requires first <==> done == []
      modifies this`lines, this`raw
      ensures Core()
      ensures raw == base + Block(counters, node, done + incoming(node, root))
    {
      var inc := incoming(node, root);
      var empty := first;
      ghost var added := done;
      for j := 0 to |inc|
        invariant Core()
        invariant added == done + inc[..j]
        invariant raw == base + Block(counters, node, added)
        invariant empty <==> added == []
      {
        PrefixSnoc(done, inc, j);
        AddRef(base, added, node, inc[j], empty);
        added := added + [inc[j]];
        empty := false;
      }
      assert inc[..|inc|] == inc;
    }

    /** Adds one cross-reference to the lexeme whose lines end `raw`: the
        first is appended to its numbered line, every later one becomes a
        line of its own. */
    method AddRef(ghost base: seq<RawLine>, ghost refs: seq<string>, node: string, t: string, first: bool)
      requires Core()
      requires raw == base + Block(counters, node, refs)
      requires first <==> refs == []
      modifies this`lines, this`raw
      ensures Core()
      ensures raw == base + Block(counters, node, refs + [t])
    {
      BlockSnoc(counters, node, refs, t);
      if first {
        SetFirstRef(base, node, t);
      } else {
        AddFurtherRef(t);
      }
    }

    /** `lines.set(lines.size() - 1, lines.getLast() + PLACEHOLDER + t)`. */
    method SetFirstRef(ghost base: seq<RawLine>, node: string, t: string)
      requires Core()
      requires raw == base + [Entry(counters, node, None)]
      modifies this`lines, this`raw
      ensures Core()
      ensures raw == base + [Entry(counters, node, Some(t))]
    {
      ghost var e0 := Entry(counters, node, None);
      ghost var e1 := Entry(counters, node, Some(t));
      assert forall k | 0 <= k < |base| :: base[k] == raw[k];
      TextsSnoc(base, e0);
      TextsSnoc(base, e1);
      assert lines[..|lines| - 1] == Texts(base);
      lines := lines[..|lines| - 1] + [lines[|lines| - 1] + Placeholder + t];
      raw := base + [e1];
    }

    /** `lines.add(PLACEHOLDER + t)`. */
    method AddFurtherRef(t: string)
      requires Core()
      modifies this`lines, this`raw
      ensures Core()
      ensures raw == old(raw) + [Continuation(t)]
    {
      TextsSnoc(raw, Continuation(t));
      lines := lines + [Placeholder + t];
      raw := raw + [Continuation(t)];
    }

    /** The loop that pushes a trailing 0 onto the counters when some
        neighbour is still unvisited, before any child is numbered. */
    method PushIfUnvisited(ns: seq<string>) returns (pushed: bool)
      modifies this`counters
      ensures pushed <==> exists t | t in ns :: t !in visited
      ensures counters == if pushed then old(counters) + [0] else old(counters)
    {
      pushed := false;
      for i := 0 to |ns|
        invariant !pushed && counters == old(counters)
        invariant forall j | 0 <= j < i :: ns[j] in visited
      {
        if ns[i] !in visited {
          assert ns[i] in ns;
          counters := counters + [0];
          pushed := true;
          break;
        }
      }
    }

    /** The loop over the sorted neighbours: each one that may nest under
        `node` and is still unvisited when reached gets the next child
        position, and the counters are restored after its subtree. */
    method WalkChildren(node: string, sorted: seq<string>, pushed: bool, ghost c: seq<nat>)
      returns (ghost children: seq<string>)
      requires Valid() && node in number && number[node] == c
      requires forall v | v in number && v != node :: !(c <= number[v])
      requires Sorted(sorted) && forall t | t in sorted :: t in adj[node]
      requires pushed ==> counters == c + [0]
      requires !pushed ==> counters == c && forall t | t in sorted :: t in visited
      modifies this`visited, this`number, this`order, this`lines, this`raw, this`counters
      decreases adj.Keys - visited, 5
      ensures Valid()
      ensures old(visited) <= visited && old(order) <= order
      ensures SubtreeNumbered(old(number), number, c, |children|)
      ensures forall t | t in sorted && Nests(kind, root, node, t) :: t in visited
      ensures Sorted(children)
      ensures forall j | 0 <= j < |children| ::
        && children[j] in sorted && Nests(kind, root, node, children[j]) && children[j] !in old(visited)
        && children[j] in number && number[children[j]] == c + [j + 1]
      ensures var w := Children(adj, kind, root, incoming, node, sorted, 0, old(counters), old(visited));
        visited == w.visited && raw == old(raw) + w.lines
    {
      children := [];
      ghost var pos: seq<nat> := [];
      ghost var done: seq<RawLine> := [];
      WalkedStart(kind, root, node, sorted, c, visited, number);
      for i := 0 to |sorted|
        invariant Valid()
        invariant old(visited) <= visited && old(order) <= order
        invariant pushed ==> counters == c + [|children|]
        invariant !pushed ==> counters == c && children == []
        invariant Walked(kind, root, node, sorted, i, c, old(visited), old(number), visited, number, children, pos)
        invariant raw == old(raw) + done
        invariant Children(adj, kind, root, incoming, node, sorted, 0, old(counters), old(visited)) ==
          var w := Children(adj, kind, root, incoming, node, sorted, i, counters, visited); Walk(w.visited, done + w.lines)
      {
        assert sorted[i] in adj[node];
        ghost var added;
        ghost var raw0 := raw;
        children, pos, added := WalkStep(node, sorted, i, pushed, c, old(visited), old(number), children, pos);
        ghost var rest := Children(adj, kind, root, incoming, node, sorted, i + 1, counters, visited).lines;
        Appended(done, added, rest, done + added, done + added + rest);
        Appended(old(raw), done, added, raw0, raw);
        done := done + added;
      }
      WalkedDone(kind, root, node, sorted, c, old(visited), old(number), visited, number, children, pos);
    }

    /** One pass of that loop, over `sorted[i]`. */
    method WalkStep(node: string, sorted: seq<string>, i: nat, pushed: bool, ghost c: seq<nat>,
                    ghost visited0: set<string>, ghost number0: map<string, seq<nat>>,
                    ghost children: seq<string>, ghost pos: seq<nat>)
      returns (ghost children': seq<string>, ghost pos': seq<nat>, ghost added: seq<RawLine>)
      requires Valid() && i < |sorted| && Sorted(sorted) && sorted[i] in adj && visited0 <= visited
      requires |counters| > 0 && forall t | t in sorted :: t in adj
      requires node in number0 && number0[node] == c
      requires forall v | v in number0 && v != node :: !(c <= number0[v])
      requires pushed ==> counters == c + [|children|]
      requires !pushed ==> counters == c && children == [] && sorted[i] in visited0
      requires Walked(kind, root, node, sorted, i, c, visited0, number0, visited, number, children, pos)
      modifies this`visited, this`number, this`order, this`lines, this`raw, this`counters
      decreases adj.Keys - visited, 4
      ensures Valid()
      ensures old(visited) <= visited && old(order) <= order
      ensures pushed ==> counters == c + [|children'|]
      ensures !pushed ==> counters == c && children' == []
      ensures Walked(kind, root, node, sorted, i + 1, c, visited0, number0, visited, number, children', pos')
      ensures raw == old(raw) + added
      ensures Children(adj, kind, root, incoming, node, sorted, i, old(counters), old(visited)) ==
        var w := Children(adj, kind, root, incoming, node, sorted, i + 1, counters, visited); Walk(w.visited, added + w.lines)
    {
      var t := sorted[i];
      ChildrenNext(adj, kind, root, incoming, node, sorted, i, counters, visited);
      if Nests(kind, root, node, t) && t !in visited {
        VisitChild(node, t, c, number0, |children|);
        WalkedStep(kind, root, node, sorted, i, c, visited0, number0, old(visited), old(number), visited, number,
                   children, pos);
        added := Expansion(adj, kind, root, incoming, t, counters, old(visited)).lines;
        children', pos' := children + [t], pos + [i];
      } else {
        WalkedSkip(kind, root, node, sorted, i, c, visited0, number0, visited, number, children, pos);
        children', pos', added := children, pos, [];
      }
    }

    /** One step of the loop over the neighbours: the last counter goes up
        by one, the child's subtree is walked, and the counters are put
        back to their value just after the increment. */
    method VisitChild(node: string, t: string, ghost c: seq<nat>, ghost before: map<string, seq<nat>>,
                      ghost k: nat)
      requires Valid() && t in adj && t !in visited
      requires counters == c + [k]
      requires node in before && before[node] == c
      requires forall v | v in before && v != node :: !(c <= before[v])
      requires SubtreeNumbered(before, number, c, k)
      modifies this`visited, this`number, this`order, this`lines, this`raw, this`counters
      decreases adj.Keys - visited, 3
      ensures Valid()
      ensures old(visited) <= visited && t in visited && old(order) <= order
      ensures Kept(old(number), number) && t in number && number[t] == c + [k + 1]
      ensures SubtreeNumbered(before, number, c, k + 1)
      ensures counters == c + [k + 1] && counters == Raised(old(counters))
      ensures var e := Expansion(adj, kind, root, incoming, t, counters, old(visited));
        visited == e.visited && raw == old(raw) + e.lines
    {
      var n := |counters| - 1;
      RaisedLast(counters, c, k);
      counters := counters[n := counters[n] + 1];
      Descend(node, t, c, before, k);
    }

    /** The recursive call on a child, numbered `c + [k + 1]`, between a
        copy of the counters and their restoration from it. */
    method Descend(node: string, t: string, ghost c: seq<nat>, ghost before: map<string, seq<nat>>,
                   ghost k: nat)
      requires Valid() && t in adj && t !in visited
      requires counters == c + [k + 1]
      requires node in before && before[node] == c
      requires forall v | v in before && v != node :: !(c <= before[v])
      requires SubtreeNumbered(before, number, c, k)
      modifies this`visited, this`number, this`order, this`lines, this`raw, this`counters
      decreases adj.Keys - visited, 2
      ensures Valid()
      ensures old(visited) <= visited && t in visited && old(order) <= order
      ensures Kept(old(number), number) && t in number && number[t] == c + [k + 1]
      ensures SubtreeNumbered(before, number, c, k + 1)
      ensures counters == old(counters)
      ensures var e := Expansion(adj, kind, root, incoming, t, old(counters), old(visited));
        visited == e.visited && raw == old(raw) + e.lines
    {
      NextUnused(before, number, node, c, k);
      var cloned := counters;
      var _ := Stringify(t);
      counters := cloned;
      SubtreeGrow(before, old(number), number, c, k);
    }
  }
}
