/** The printout GraphResourceTest.stringifyGraph_FoxTrot expects from
    GraphService.stringifyGraph, for the graph that test sets up, derived
    from the model. */
module FoxTrot {
  import opened Base
  import opened Text
  import opened Counters
  import opened Layout
  import opened Outline
  import opened Printout

  /** The node types of the test graph. */
  const Kinds: map<string, NodeType> := map[
    "ens" := Lexeme, "bravo" := Lexeme, "charlie" := Lexeme, "delta" := Division, "echo" := Lexeme,
    "fox trot" := Lexeme, "golf" := Division, "hotel" := Lexeme, "india" := Lexeme]

  /** Its edges by source: the eight of the shared test graph, and the two
      from charlie that the printout tests add. */
  const Edges: map<string, set<string>> := map[
    "ens" := {"bravo", "charlie", "delta", "echo"}, "bravo" := {}, "charlie" := {"echo", "hotel"},
    "delta" := {"fox trot", "golf"}, "echo" := {}, "fox trot" := {}, "golf" := {"hotel", "india"},
    "hotel" := {}, "india" := {}]

  /** The answers of the incoming-lexeme query from root "ens" on that
      graph: the lexemes other than the root with an edge to the node. */
  predicate IncomingOk(incoming: (string, string) -> seq<string>)
  {
    && incoming("bravo", "ens") == [] && incoming("charlie", "ens") == [] && incoming("echo", "ens") == ["charlie"]
    && incoming("fox trot", "ens") == [] && incoming("hotel", "ens") == ["charlie"]
    && incoming("india", "ens") == []
  }

  /** The walk's lines for that graph from "ens", one by one. */
  predicate WalkLines(raw: seq<RawLine>)
  {
    && |raw| == 8
    && raw[0] == Entry([1], "ens", None) && raw[1] == Entry([1, 1], "bravo", None)
    && raw[2] == Entry([1, 2], "charlie", Some("echo")) && raw[3] == Continuation("hotel")
    && raw[4] == Entry([1, 3, 1], "fox trot", None) && raw[5] == Entry([1, 3, 2, 1], "hotel", Some("charlie"))
    && raw[6] == Entry([1, 3, 2, 2], "india", None) && raw[7] == Entry([1, 4], "echo", Some("charlie"))
  }

  /** The expected text, without the two "<n>.0 *" lines the test also
      lists, which stringify never writes. */
  const Expected: string :=
    "1 ens" + "\n" + "1.1 bravo" + "\n" + "1.2 charlie ...... echo" + "\n" + "            ...... hotel" + "\n"
    + "1.3.1 fox trot" + "\n" + "1.3.2.1 hotel .... charlie" + "\n" + "1.3.2.2 india" + "\n"
    + "1.4 echo ......... charlie" + "\n"

  /** `v` is a lexeme with no edges. */
  predicate LeafAt(adj: map<string, set<string>>, kind: map<string, NodeType>, v: string)
  {
    v in adj && adj[v] == {} && v in kind && kind[v] == Lexeme
  }

  /** The nine node ids of the test graph, held apart from their
      spelling so that the walk lemmas reason about ids only. */
  datatype Ids = Ids(ens: string, bravo: string, charlie: string, delta: string, echo: string,
                     foxTrot: string, golf: string, hotel: string, india: string)

  /** The nine ids are pairwise different. */
  predicate Apart(n: Ids)
  {
    && n.ens != n.bravo && n.ens != n.charlie && n.ens != n.delta && n.ens != n.echo
    && n.ens != n.foxTrot && n.ens != n.golf && n.ens != n.hotel && n.ens != n.india
    && n.bravo != n.charlie && n.bravo != n.delta && n.bravo != n.echo && n.bravo != n.foxTrot
    && n.bravo != n.golf && n.bravo != n.hotel && n.bravo != n.india
    && n.charlie != n.delta && n.charlie != n.echo && n.charlie != n.foxTrot && n.charlie != n.golf
    && n.charlie != n.hotel && n.charlie != n.india
    && n.delta != n.echo && n.delta != n.foxTrot && n.delta != n.golf && n.delta != n.hotel
    && n.delta != n.india
    && n.echo != n.foxTrot && n.echo != n.golf && n.echo != n.hotel && n.echo != n.india
    && n.foxTrot != n.golf && n.foxTrot != n.hotel && n.foxTrot != n.india
    && n.golf != n.hotel && n.golf != n.india
    && n.hotel != n.india
  }

  /** A snapshot shaped like the test graph, with each node's neighbours
      in the order `sorted()` gives them. */
  predicate ShapeOf(adj: map<string, set<string>>, kind: map<string, NodeType>, n: Ids)
  {
    && GraphOk(adj, kind)
    && n.ens in adj && kind[n.ens] == Lexeme
    && Ascending(adj[n.ens]) == [n.bravo, n.charlie, n.delta, n.echo]
    && n.charlie in adj && kind[n.charlie] == Lexeme && Ascending(adj[n.charlie]) == [n.echo, n.hotel]
    && n.delta in adj && kind[n.delta] == Division && Ascending(adj[n.delta]) == [n.foxTrot, n.golf]
    && n.golf in adj && kind[n.golf] == Division && Ascending(adj[n.golf]) == [n.hotel, n.india]
    && LeafAt(adj, kind, n.bravo) && LeafAt(adj, kind, n.echo) && LeafAt(adj, kind, n.foxTrot)
    && LeafAt(adj, kind, n.hotel) && LeafAt(adj, kind, n.india)
  }

  /** The lines below delta when it is numbered `d`: fox trot, then
      golf's two lexemes. */
  function DeltaLines(n: Ids, incoming: (string, string) -> seq<string>, d: seq<nat>): seq<RawLine>
  {
    Block(d + [1], n.foxTrot, incoming(n.foxTrot, n.ens))
    + (Block(d + [2] + [1], n.hotel, incoming(n.hotel, n.ens))
    + Block(d + [2] + [2], n.india, incoming(n.india, n.ens)))
  }

  /** The walk's lines on such a snapshot from `ens` numbered `c`, with
      the answers of the incoming-lexeme query left open. */
  function LinesOf(n: Ids, incoming: (string, string) -> seq<string>, c: seq<nat>): seq<RawLine>
  {
    Block(c, n.ens, [])
    + (Block(c + [1], n.bravo, incoming(n.bravo, n.ens))
    + (Block(c + [2], n.charlie, [n.echo, n.hotel] + incoming(n.charlie, n.ens))
    + (DeltaLines(n, incoming, c + [3])
    + Block(c + [4], n.echo, incoming(n.echo, n.ens)))))
  }

  /** The sorted neighbours, for ids given in ascending order. */
  lemma AscendingOf(s: set<string>, r: seq<string>)
    requires Sorted(r) && forall y :: y in r <==> y in s
    ensures Ascending(s) == r
  {
    AscendingSorted(s);
    SortedUnique(Ascending(s), r);
  }

  /** Two lexemes keep their ids. */
  lemma TwoLexemes(a: string, b: string, kind: map<string, NodeType>)
    requires a in kind && kind[a] == Lexeme && b in kind && kind[b] == Lexeme
    ensures Lexemes([a, b], kind) == [a, b]
  {
    LexemesSnoc([], a, kind);
    assert [] + [a] == [a];
    LexemesSnoc([a], b, kind);
    assert [a] + [b] == [a, b];
  }

  /** From step i on, no neighbour nests or each is visited: the rest of
      the walk over the neighbours adds nothing. */
  lemma {:induction false} NoChildren(adj: map<string, set<string>>, kind: map<string, NodeType>, root: string,
                                      incoming: (string, string) -> seq<string>, node: string,
                                      sorted: seq<string>, i: nat, counters: seq<nat>, visited: set<string>)
    requires GraphOk(adj, kind) && i <= |sorted| && |counters| > 0
    requires forall t | t in sorted :: t in adj
    requires forall j | i <= j < |sorted| :: !Nests(kind, root, node, sorted[j]) || sorted[j] in visited
    ensures Children(adj, kind, root, incoming, node, sorted, i, counters, visited) == Walk(visited, [])
    decreases |sorted| - i
  {
    if i < |sorted| {
      ChildrenNext(adj, kind, root, incoming, node, sorted, i, counters, visited);
      NoChildren(adj, kind, root, incoming, node, sorted, i + 1, counters, visited);
    }
  }

  /** A neighbour that nests and is unvisited when its turn comes: the
      walk below it, numbered with the last counter raised, then the
      walk over the later neighbours. */
  lemma NestedChild(adj: map<string, set<string>>, kind: map<string, NodeType>, root: string,
                    incoming: (string, string) -> seq<string>, node: string,
                    sorted: seq<string>, i: nat, c: seq<nat>, k: nat, visited: set<string>)
    requires GraphOk(adj, kind) && i < |sorted| && forall t | t in sorted :: t in adj
    requires Nests(kind, root, node, sorted[i]) && sorted[i] !in visited
    ensures var sub := Expansion(adj, kind, root, incoming, sorted[i], c + [k + 1], visited);
      var rest := Children(adj, kind, root, incoming, node, sorted, i + 1, c + [k + 1], sub.visited);
      Children(adj, kind, root, incoming, node, sorted, i, c + [k], visited) == Walk(rest.visited, sub.lines + rest.lines)
  {
    RaisedLast(c + [k], c, k);
    ChildrenNext(adj, kind, root, incoming, node, sorted, i, c + [k], visited);
  }

  /** A lexeme other than the root whose neighbours are all lexemes:
      its block and nothing below it. */
  lemma LexemeOnly(adj: map<string, set<string>>, kind: map<string, NodeType>, root: string,
                   incoming: (string, string) -> seq<string>, node: string, c: seq<nat>, visited: set<string>)
    requires GraphOk(adj, kind) && node in adj && |c| > 0 && node !in visited && node != root
    requires kind[node] == Lexeme && forall t | t in adj[node] :: kind[t] == Lexeme
    ensures Expansion(adj, kind, root, incoming, node, c, visited)
      == Walk(visited + {node}, Block(c, node, Refs(kind, root, incoming, node, Ascending(adj[node]))))
  {
    var sorted := Ascending(adj[node]);
    var counters := if AnyUnseen(sorted, visited + {node}) then c + [0] else c;
    ExpansionStep(adj, kind, root, incoming, node, c, visited, counters);
    NoChildren(adj, kind, root, incoming, node, sorted, 0, counters, visited + {node});
  }

  /** A lexeme other than the root, with no neighbours: its entry with
      the references the query gives. */
  lemma Leaf(adj: map<string, set<string>>, kind: map<string, NodeType>, root: string,
             incoming: (string, string) -> seq<string>, v: string, c: seq<nat>, visited: set<string>)
    requires GraphOk(adj, kind) && LeafAt(adj, kind, v) && v != root
    requires v !in visited && |c| > 0
    ensures Expansion(adj, kind, root, incoming, v, c, visited)
      == Walk(visited + {v}, Block(c, v, incoming(v, root)))
  {
    assert Ascending({}) == [];
    LexemeOnly(adj, kind, root, incoming, v, c, visited);
    assert Refs(kind, root, incoming, v, []) == incoming(v, root);
  }

  /** A lexeme other than the root with two lexeme neighbours: they are
      references, not children. */
  lemma LexemePair(adj: map<string, set<string>>, kind: map<string, NodeType>, root: string,
                   incoming: (string, string) -> seq<string>, v: string, a: string, b: string,
                   c: seq<nat>, visited: set<string>)
    requires GraphOk(adj, kind) && v in adj && kind[v] == Lexeme && v != root
    requires Ascending(adj[v]) == [a, b] && kind[a] == Lexeme && kind[b] == Lexeme
    requires v !in visited && |c| > 0
    ensures Expansion(adj, kind, root, incoming, v, c, visited)
      == Walk(visited + {v}, Block(c, v, [a, b] + incoming(v, root)))
  {
    LexemeOnly(adj, kind, root, incoming, v, c, visited);
    TwoLexemes(a, b, kind);
  }

  /** The second of two neighbours, when it nests and is unvisited:
      its walk, numbered with the last counter raised to 2. */
  lemma SecondChild(adj: map<string, set<string>>, kind: map<string, NodeType>, root: string,
                    incoming: (string, string) -> seq<string>, node: string, a: string, b: string,
                    c: seq<nat>, visited: set<string>)
    requires GraphOk(adj, kind) && a in adj && b in adj
    requires Nests(kind, root, node, b) && b !in visited
    ensures var second := Expansion(adj, kind, root, incoming, b, c + [2], visited);
      Children(adj, kind, root, incoming, node, [a, b], 1, c + [1], visited) == second
  {
    NestedChild(adj, kind, root, incoming, node, [a, b], 1, c, 1, visited);
    var second := Expansion(adj, kind, root, incoming, b, c + [2], visited);
    NoChildren(adj, kind, root, incoming, node, [a, b], 2, c + [2], second.visited);
  }

  /** A division or opposition with an unvisited neighbour: the walk
      over its sorted neighbours, from the counters extended by 0. */
  lemma DivisionStep(adj: map<string, set<string>>, kind: map<string, NodeType>, root: string,
                     incoming: (string, string) -> seq<string>, node: string, c: seq<nat>, visited: set<string>,
                     t: string)
    requires GraphOk(adj, kind) && node in adj && |c| > 0 && node !in visited && kind[node] != Lexeme
    requires t in adj[node] && t !in visited + {node}
    ensures Expansion(adj, kind, root, incoming, node, c, visited)
      == Children(adj, kind, root, incoming, node, Ascending(adj[node]), 0, c + [0], visited + {node})
  {
    assert t in Ascending(adj[node]);
    AnyUnseenIff(Ascending(adj[node]), visited + {node});
    ExpansionStep(adj, kind, root, incoming, node, c, visited, c + [0]);
  }

  /** A division or opposition with two neighbours, neither visited
      when its turn comes: their walks, numbered c.1 and c.2. */
  lemma TwoChildren(adj: map<string, set<string>>, kind: map<string, NodeType>, root: string,
                    incoming: (string, string) -> seq<string>, node: string, c: seq<nat>, visited: set<string>,
                    a: string, b: string)
    requires GraphOk(adj, kind) && node in adj && |c| > 0 && node !in visited && kind[node] != Lexeme
    requires Ascending(adj[node]) == [a, b] && a !in visited + {node}
    requires b !in Expansion(adj, kind, root, incoming, a, c + [1], visited + {node}).visited
    ensures var first := Expansion(adj, kind, root, incoming, a, c + [1], visited + {node});
      var second := Expansion(adj, kind, root, incoming, b, c + [2], first.visited);
      Expansion(adj, kind, root, incoming, node, c, visited) == Walk(second.visited, first.lines + second.lines)
  {
    DivisionStep(adj, kind, root, incoming, node, c, visited, a);
    NestedChild(adj, kind, root, incoming, node, [a, b], 0, c, 0, visited + {node});
    var first := Expansion(adj, kind, root, incoming, a, c + [1], visited + {node});
    SecondChild(adj, kind, root, incoming, node, a, b, c, first.visited);
  }

  /** A division or opposition over two lexemes without edges. */
  lemma OverTwoLeaves(adj: map<string, set<string>>, kind: map<string, NodeType>, root: string,
                      incoming: (string, string) -> seq<string>, node: string, a: string, b: string,
                      c: seq<nat>, visited: set<string>)
    requires GraphOk(adj, kind) && node in adj && kind[node] != Lexeme && |c| > 0
    requires Ascending(adj[node]) == [a, b] && LeafAt(adj, kind, a) && LeafAt(adj, kind, b)
    requires a != root && b != root && a != b && node !in visited
    requires a !in visited + {node} && b !in visited + {node}
    ensures Expansion(adj, kind, root, incoming, node, c, visited)
      == Walk(visited + {node} + {a} + {b}, Block(c + [1], a, incoming(a, root)) + Block(c + [2], b, incoming(b, root)))
  {
    Leaf(adj, kind, root, incoming, a, c + [1], visited + {node});
    Leaf(adj, kind, root, incoming, b, c + [2], visited + {node} + {a});
    TwoChildren(adj, kind, root, incoming, node, c, visited, a, b);
  }

  /** Adding an id other than `x` to a set without `x` leaves it out. */
  lemma Out1(x: string, s: set<string>, a: string)
    requires x !in s && x != a
    ensures x !in s + {a}
  {
  }

  lemma Out3(x: string, s: set<string>, a: string, b: string, c: string)
    requires x !in s && x != a && x != b && x != c
    ensures x !in s + {a} + {b} + {c}
  {
  }

  lemma Out5(x: string, s: set<string>, a: string, b: string, c: string, d: string, e: string)
    requires x !in s && x != a && x != b && x != c && x != d && x != e
    ensures x !in s + {a} + {b} + {c} + {d} + {e}
  {
  }

  /** delta: a division over the leaf fox trot and the division golf. */
  lemma Delta(adj: map<string, set<string>>, kind: map<string, NodeType>, n: Ids,
              incoming: (string, string) -> seq<string>, c: seq<nat>, visited: set<string>)
    requires ShapeOf(adj, kind, n) && Apart(n) && |c| > 0
    requires n.delta !in visited && n.foxTrot !in visited && n.golf !in visited
    requires n.hotel !in visited && n.india !in visited
    ensures Expansion(adj, kind, n.ens, incoming, n.delta, c, visited)
      == Walk(visited + {n.delta} + {n.foxTrot} + {n.golf} + {n.hotel} + {n.india}, DeltaLines(n, incoming, c))
  {
    var seen := visited + {n.delta};
    Out1(n.foxTrot, visited, n.delta);
    Out1(n.golf, visited, n.delta);
    Out1(n.golf, seen, n.foxTrot);
    Out3(n.hotel, visited, n.delta, n.foxTrot, n.golf);
    Out3(n.india, visited, n.delta, n.foxTrot, n.golf);
    Leaf(adj, kind, n.ens, incoming, n.foxTrot, c + [1], seen);
    OverTwoLeaves(adj, kind, n.ens, incoming, n.golf, n.hotel, n.india, c + [2], seen + {n.foxTrot});
    TwoChildren(adj, kind, n.ens, incoming, n.delta, c, visited, n.foxTrot, n.golf);
  }

  /** echo, the last of the root's neighbours. */
  lemma FromEcho(adj: map<string, set<string>>, kind: map<string, NodeType>, n: Ids,
                 incoming: (string, string) -> seq<string>, c: seq<nat>, visited: set<string>)
    requires ShapeOf(adj, kind, n) && Apart(n) && |c| > 0 && n.echo !in visited
    ensures Children(adj, kind, n.ens, incoming, n.ens, Ascending(adj[n.ens]), 3, c + [3], visited).lines
      == Block(c + [4], n.echo, incoming(n.echo, n.ens))
  {
    NestedChild(adj, kind, n.ens, incoming, n.ens, Ascending(adj[n.ens]), 3, c, 3, visited);
    Leaf(adj, kind, n.ens, incoming, n.echo, c + [4], visited);
  }

  /** delta, the third of the root's neighbours, then the rest. */
  lemma DeltaChild(adj: map<string, set<string>>, kind: map<string, NodeType>, n: Ids,
                   incoming: (string, string) -> seq<string>, c: seq<nat>, visited: set<string>)
    requires ShapeOf(adj, kind, n) && Apart(n) && |c| > 0
    requires n.delta !in visited && n.foxTrot !in visited && n.golf !in visited
    requires n.hotel !in visited && n.india !in visited
    ensures var below := visited + {n.delta} + {n.foxTrot} + {n.golf} + {n.hotel} + {n.india};
      var rest := Children(adj, kind, n.ens, incoming, n.ens, Ascending(adj[n.ens]), 3, c + [3], below);
      Children(adj, kind, n.ens, incoming, n.ens, Ascending(adj[n.ens]), 2, c + [2], visited)
        == Walk(rest.visited, DeltaLines(n, incoming, c + [3]) + rest.lines)
  {
    NestedChild(adj, kind, n.ens, incoming, n.ens, Ascending(adj[n.ens]), 2, c, 2, visited);
    Delta(adj, kind, n, incoming, c + [3], visited);
  }

  /** The walk over the root's neighbours from delta on. */
  lemma FromDelta(adj: map<string, set<string>>, kind: map<string, NodeType>, n: Ids,
                  incoming: (string, string) -> seq<string>, c: seq<nat>, visited: set<string>)
    requires ShapeOf(adj, kind, n) && Apart(n) && |c| > 0
    requires n.delta !in visited && n.echo !in visited && n.foxTrot !in visited && n.golf !in visited
    requires n.hotel !in visited && n.india !in visited
    ensures Children(adj, kind, n.ens, incoming, n.ens, Ascending(adj[n.ens]), 2, c + [2], visited).lines
      == DeltaLines(n, incoming, c + [3]) + Block(c + [4], n.echo, incoming(n.echo, n.ens))
  {
    Out5(n.echo, visited, n.delta, n.foxTrot, n.golf, n.hotel, n.india);
    DeltaChild(adj, kind, n, incoming, c, visited);
    FromEcho(adj, kind, n, incoming, c, visited + {n.delta} + {n.foxTrot} + {n.golf} + {n.hotel} + {n.india});
  }

  /** charlie, the second of the root's neighbours, then the rest. */
  lemma CharlieChild(adj: map<string, set<string>>, kind: map<string, NodeType>, n: Ids,
                     incoming: (string, string) -> seq<string>, c: seq<nat>, visited: set<string>)
    requires ShapeOf(adj, kind, n) && Apart(n) && |c| > 0 && n.charlie !in visited
    ensures var rest := Children(adj, kind, n.ens, incoming, n.ens, Ascending(adj[n.ens]), 2, c + [2], visited + {n.charlie});
      Children(adj, kind, n.ens, incoming, n.ens, Ascending(adj[n.ens]), 1, c + [1], visited)
        == Walk(rest.visited, Block(c + [2], n.charlie, [n.echo, n.hotel] + incoming(n.charlie, n.ens)) + rest.lines)
  {
    NestedChild(adj, kind, n.ens, incoming, n.ens, Ascending(adj[n.ens]), 1, c, 1, visited);
    LexemePair(adj, kind, n.ens, incoming, n.charlie, n.echo, n.hotel, c + [2], visited);
  }

  /** The walk over the root's neighbours from charlie on. */
  lemma FromCharlie(adj: map<string, set<string>>, kind: map<string, NodeType>, n: Ids,
                    incoming: (string, string) -> seq<string>, c: seq<nat>, visited: set<string>)
    requires ShapeOf(adj, kind, n) && Apart(n) && |c| > 0
    requires n.charlie !in visited && n.delta !in visited && n.echo !in visited && n.foxTrot !in visited
    requires n.golf !in visited && n.hotel !in visited && n.india !in visited
    ensures Children(adj, kind, n.ens, incoming, n.ens, Ascending(adj[n.ens]), 1, c + [1], visited).lines
      == Block(c + [2], n.charlie, [n.echo, n.hotel] + incoming(n.charlie, n.ens))
         + (DeltaLines(n, incoming, c + [3]) + Block(c + [4], n.echo, incoming(n.echo, n.ens)))
  {
    Out1(n.delta, visited, n.charlie);
    Out1(n.echo, visited, n.charlie);
    Out1(n.foxTrot, visited, n.charlie);
    Out1(n.golf, visited, n.charlie);
    Out1(n.hotel, visited, n.charlie);
    Out1(n.india, visited, n.charlie);
    CharlieChild(adj, kind, n, incoming, c, visited);
    FromDelta(adj, kind, n, incoming, c, visited + {n.charlie});
  }

  /** bravo, the first of the root's neighbours, then the rest. */
  lemma BravoChild(adj: map<string, set<string>>, kind: map<string, NodeType>, n: Ids,
                   incoming: (string, string) -> seq<string>, c: seq<nat>, visited: set<string>)
    requires GraphOk(adj, kind) && n.ens in adj
    requires |Ascending(adj[n.ens])| > 1 && Ascending(adj[n.ens])[0] == n.bravo
    requires LeafAt(adj, kind, n.bravo) && n.bravo != n.ens && |c| > 0 && n.bravo !in visited
    ensures var rest := Children(adj, kind, n.ens, incoming, n.ens, Ascending(adj[n.ens]), 1, c + [1], visited + {n.bravo});
      Children(adj, kind, n.ens, incoming, n.ens, Ascending(adj[n.ens]), 0, c + [0], visited)
        == Walk(rest.visited, Block(c + [1], n.bravo, incoming(n.bravo, n.ens)) + rest.lines)
  {
    NestedChild(adj, kind, n.ens, incoming, n.ens, Ascending(adj[n.ens]), 0, c, 0, visited);
    Leaf(adj, kind, n.ens, incoming, n.bravo, c + [1], visited);
  }

  /** The walk over all the root's neighbours, none of them visited. */
  lemma RootChildren(adj: map<string, set<string>>, kind: map<string, NodeType>, n: Ids,
                     incoming: (string, string) -> seq<string>, c: seq<nat>, visited: set<string>)
    requires ShapeOf(adj, kind, n) && Apart(n) && |c| > 0
    requires n.bravo !in visited && n.charlie !in visited && n.delta !in visited && n.echo !in visited
    requires n.foxTrot !in visited && n.golf !in visited && n.hotel !in visited && n.india !in visited
    ensures Children(adj, kind, n.ens, incoming, n.ens, Ascending(adj[n.ens]), 0, c + [0], visited).lines
      == Block(c + [1], n.bravo, incoming(n.bravo, n.ens))
         + (Block(c + [2], n.charlie, [n.echo, n.hotel] + incoming(n.charlie, n.ens))
         + (DeltaLines(n, incoming, c + [3]) + Block(c + [4], n.echo, incoming(n.echo, n.ens))))
  {
    Out1(n.charlie, visited, n.bravo);
    Out1(n.delta, visited, n.bravo);
    Out1(n.echo, visited, n.bravo);
    Out1(n.foxTrot, visited, n.bravo);
    Out1(n.golf, visited, n.bravo);
    Out1(n.hotel, visited, n.bravo);
    Out1(n.india, visited, n.bravo);
    BravoChild(adj, kind, n, incoming, c, visited);
    FromCharlie(adj, kind, n, incoming, c, visited + {n.bravo});
  }

  /** The root, a lexeme with a neighbour: its entry, without
      references, then the walk over its sorted neighbours. */
  lemma RootStep(adj: map<string, set<string>>, kind: map<string, NodeType>, root: string,
                 incoming: (string, string) -> seq<string>, c: seq<nat>, t: string)
    requires GraphOk(adj, kind) && root in adj && |c| > 0 && kind[root] == Lexeme
    requires t in adj[root] && t != root
    ensures Expansion(adj, kind, root, incoming, root, c, {}).lines
      == Block(c, root, []) + Children(adj, kind, root, incoming, root, Ascending(adj[root]), 0, c + [0], {} + {root}).lines
  {
    assert t in Ascending(adj[root]);
    ExpansionStep(adj, kind, root, incoming, root, c, {}, c + [0]);
  }

  /** The walk from the root of such a snapshot gives those lines. */
  lemma WalkOf(adj: map<string, set<string>>, kind: map<string, NodeType>, n: Ids,
               incoming: (string, string) -> seq<string>, c: seq<nat>)
    requires ShapeOf(adj, kind, n) && Apart(n) && |c| > 0
    ensures Expansion(adj, kind, n.ens, incoming, n.ens, c, {}).lines == LinesOf(n, incoming, c)
  {
    assert n.bravo in Ascending(adj[n.ens]);
    RootStep(adj, kind, n.ens, incoming, c, n.bravo);
    RootChildren(adj, kind, n, incoming, c, {} + {n.ens});
  }

  /** The test graph's ids. */
  const Test := Ids("ens", "bravo", "charlie", "delta", "echo", "fox trot", "golf", "hotel", "india")

  /** ens's neighbours in `sorted()` order. */
  lemma EnsOrder()
    ensures Ascending(Edges["ens"]) == ["bravo", "charlie", "delta", "echo"]
  {
    assert Less("bravo", "charlie") && Less("bravo", "delta") && Less("bravo", "echo");
    assert Less("charlie", "delta") && Less("charlie", "echo") && Less("delta", "echo");
    AscendingOf(Edges["ens"], ["bravo", "charlie", "delta", "echo"]);
  }

  /** Two ids, the lesser first. */
  lemma PairOrder(s: set<string>, a: string, b: string)
    requires s == {a, b} && Less(a, b)
    ensures Ascending(s) == [a, b]
  {
    AscendingOf(s, [a, b]);
  }

  /** The neighbours of charlie, delta and golf in `sorted()` order. */
  lemma InnerOrder()
    ensures Ascending(Edges["charlie"]) == ["echo", "hotel"]
    ensures Ascending(Edges["delta"]) == ["fox trot", "golf"]
    ensures Ascending(Edges["golf"]) == ["hotel", "india"]
  {
    PairOrder(Edges["charlie"], "echo", "hotel");
    PairOrder(Edges["delta"], "fox trot", "golf");
    PairOrder(Edges["golf"], "hotel", "india");
  }

  /** The test graph is a snapshot: every node typed, every neighbour a
      node. */
  lemma TestGraph()
    ensures GraphOk(Edges, Kinds)
  {
    assert Edges.Keys == Kinds.Keys;
  }

  /** The leaves and the node types of the test graph. */
  lemma TestKinds()
    ensures LeafAt(Edges, Kinds, "bravo") && LeafAt(Edges, Kinds, "echo") && LeafAt(Edges, Kinds, "fox trot")
    ensures LeafAt(Edges, Kinds, "hotel") && LeafAt(Edges, Kinds, "india")
    ensures Kinds["ens"] == Lexeme && Kinds["charlie"] == Lexeme
    ensures Kinds["delta"] == Division && Kinds["golf"] == Division
  {
  }

  /** The test graph has the shape the walk lemmas assume. */
  lemma TestShape()
    ensures ShapeOf(Edges, Kinds, Test) && Apart(Test)
  {
    TestGraph();
    TestKinds();
    EnsOrder();
    InnerOrder();
  }

  /** The two blocks with references to others. */
  lemma TestRefBlocks()
    ensures Block([1, 2], "charlie", ["echo", "hotel"]) == [Entry([1, 2], "charlie", Some("echo")), Continuation("hotel")]
    ensures Block([1, 3, 2, 1], "hotel", ["charlie"]) == [Entry([1, 3, 2, 1], "hotel", Some("charlie"))]
    ensures Block([1, 4], "echo", ["charlie"]) == [Entry([1, 4], "echo", Some("charlie"))]
  {
    BlockSnoc([1, 2], "charlie", ["echo"], "hotel");
    assert ["echo"] + ["hotel"] == ["echo", "hotel"];
  }

  /** With the incoming-lexeme answers of the test graph, the walk's
      lines from "ens" numbered 1 are the expected ones. */
  lemma TestLines(incoming: (string, string) -> seq<string>)
    requires IncomingOk(incoming)
    ensures WalkLines(LinesOf(Test, incoming, [1]))
  {
    TestRefBlocks();
    assert ["echo", "hotel"] + [] == ["echo", "hotel"];
    assert Test.foxTrot == "fox trot" && Test.hotel == "hotel" && Test.india == "india" && Test.ens == "ens";
    assert [1, 3] + [1] == [1, 3, 1] && [1, 3] + [2] + [1] == [1, 3, 2, 1] && [1, 3] + [2] + [2] == [1, 3, 2, 2];
    assert [1] + [1] == [1, 1] && [1] + [2] == [1, 2] && [1] + [3] == [1, 3] && [1] + [4] == [1, 4];
    var d := DeltaLines(Test, incoming, [1, 3]);
    assert d == [Entry([1, 3, 1], "fox trot", None)] + ([Entry([1, 3, 2, 1], "hotel", Some("charlie"))]
      + [Entry([1, 3, 2, 2], "india", None)]);
    assert LinesOf(Test, incoming, [1]) == [Entry([1], "ens", None)] + ([Entry([1, 1], "bravo", None)]
      + ([Entry([1, 2], "charlie", Some("echo")), Continuation("hotel")] + (d + [Entry([1, 4], "echo", Some("charlie"))])));
    assert LinesOf(Test, incoming, [1]) == [Entry([1], "ens", None), Entry([1, 1], "bravo", None),
      Entry([1, 2], "charlie", Some("echo")), Continuation("hotel"), Entry([1, 3, 1], "fox trot", None),
      Entry([1, 3, 2, 1], "hotel", Some("charlie")), Entry([1, 3, 2, 2], "india", None),
      Entry([1, 4], "echo", Some("charlie"))];
  }

  /** GraphResourceTest.stringifyGraph_FoxTrot: the walk from "ens" on the
      test graph gives the expected lines. */
  lemma FoxTrotWalk(incoming: (string, string) -> seq<string>)
    requires IncomingOk(incoming)
    ensures GraphOk(Edges, Kinds) && WalkLines(Expansion(Edges, Kinds, "ens", incoming, "ens", [1], {}).lines)
  {
    TestShape();
    WalkOf(Edges, Kinds, Test, incoming, [1]);
    TestLines(incoming);
  }

  /** An id without '<', newline or '.' is shown as is. */
  lemma PlainWithoutDots(id: string)
    requires '<' !in id && '\n' !in id && '.' !in id
    ensures PlainId(id)
  {
    forall p | 0 <= p < |id|
      ensures !OccursAt(id, " .", p)
    {
      if p + 2 <= |id| {
        assert id[p..p + 2][1] == id[p + 1];
      }
    }
    if |id| > 0 {
      assert id[..1][0] == id[0];
    }
  }

  /** The ids of the test graph are shown as they are. */
  lemma PlainIds()
    ensures PlainId("ens") && PlainId("bravo") && PlainId("charlie") && PlainId("echo")
    ensures PlainId("fox trot") && PlainId("hotel") && PlainId("india")
  {
    PlainShortIds();
    PlainLongIds();
  }

  lemma PlainShortIds()
    ensures PlainId("ens") && PlainId("echo") && PlainId("hotel")
  {
    PlainWithoutDots("ens");
    PlainWithoutDots("echo");
    PlainWithoutDots("hotel");
  }

  lemma PlainLongIds()
    ensures PlainId("bravo") && PlainId("charlie") && PlainId("fox trot") && PlainId("india")
  {
    PlainWithoutDots("bravo");
    PlainWithoutDots("charlie");
    PlainWithoutDots("fox trot");
    PlainWithoutDots("india");
  }

  /** Every line of the test's walk is plain. */
  lemma TestPlain(raw: seq<RawLine>)
    requires WalkLines(raw)
    ensures forall j | 0 <= j < |raw| :: Plain(raw[j])
  {
    PlainIds();
    forall j | 0 <= j < |raw|
      ensures Plain(raw[j])
    {
      assert j == 0 || j == 1 || j == 2 || j == 3 || j == 4 || j == 5 || j == 6 || j == 7;
    }
  }

  /** The two-level outline numbers of the test's lines, written out. */
  lemma ShortNumbers()
    ensures Dotted([1]) == "1" && Dotted([1, 1]) == "1.1" && Dotted([1, 2]) == "1.2" && Dotted([1, 4]) == "1.4"
    ensures Dotted([1, 3]) == "1.3"
  {
    assert [1] + [1] == [1, 1] && [1] + [2] == [1, 2] && [1] + [3] == [1, 3] && [1] + [4] == [1, 4];
    DottedSnoc([1], 1);
    DottedSnoc([1], 2);
    DottedSnoc([1], 3);
    DottedSnoc([1], 4);
  }

  /** The deeper outline numbers of the test's lines, written out. */
  lemma LongNumbers()
    ensures Dotted([1, 3, 1]) == "1.3.1" && Dotted([1, 3, 2, 1]) == "1.3.2.1" && Dotted([1, 3, 2, 2]) == "1.3.2.2"
  {
    ShortNumbers();
    assert [1, 3] + [1] == [1, 3, 1] && [1, 3] + [2] == [1, 3, 2];
    assert [1, 3, 2] + [1] == [1, 3, 2, 1] && [1, 3, 2] + [2] == [1, 3, 2, 2];
    DottedSnoc([1, 3], 1);
    DottedSnoc([1, 3], 2);
    DottedSnoc([1, 3, 2], 1);
    DottedSnoc([1, 3, 2], 2);
  }

  /** The outline numbers of the test's lines, written out. */
  lemma TestNumbers()
    ensures Dotted([1]) == "1" && Dotted([1, 1]) == "1.1" && Dotted([1, 2]) == "1.2" && Dotted([1, 4]) == "1.4"
    ensures Dotted([1, 3, 1]) == "1.3.1" && Dotted([1, 3, 2, 1]) == "1.3.2.1" && Dotted([1, 3, 2, 2]) == "1.3.2.2"
  {
    ShortNumbers();
    LongNumbers();
  }

  /** The first pass measures an entry without a reference up to the
      end of its id. */
  lemma EntryWidth(n: seq<nat>, id: string)
    requires Plain(Entry(n, id, None))
    ensures Width(LineText(Entry(n, id, None))) == Column(n, id)
  {
    var s := LineText(Entry(n, id, None));
    DottedPlain(n);
    assert '<' !in s;
    SoleToken(s, -1);
  }

  /** The first pass measures a line that starts with the token as -1. */
  lemma TokenFirstWidth(t: string)
    ensures Width(Placeholder + t) == -1
  {
    assert (Placeholder + t)[..|Placeholder|] == Placeholder;
  }

  /** The widths of the test's entries without a reference. */
  lemma EntryWidths()
    ensures Width(LineText(Entry([1], "ens", None))) == 5
    ensures Width(LineText(Entry([1, 1], "bravo", None))) == 9
    ensures Width(LineText(Entry([1, 3, 1], "fox trot", None))) == 14
    ensures Width(LineText(Entry([1, 3, 2, 2], "india", None))) == 13
  {
    PlainIds();
    TestNumbers();
    EntryWidth([1], "ens");
    EntryWidth([1, 1], "bravo");
    EntryWidth([1, 3, 1], "fox trot");
    EntryWidth([1, 3, 2, 2], "india");
  }

  /** The widths of the test's lines with a reference. */
  lemma RefWidths()
    ensures Width(LineText(Entry([1, 2], "charlie", Some("echo")))) == 10
    ensures Width(LineText(Continuation("hotel"))) == -1
    ensures Width(LineText(Entry([1, 3, 2, 1], "hotel", Some("charlie")))) == 12
    ensures Width(LineText(Entry([1, 4], "echo", Some("charlie")))) == 7
  {
    PlainIds();
    TestNumbers();
    RefWidth([1, 2], "charlie", "echo");
    TokenFirstWidth("hotel");
    RefWidth([1, 3, 2, 1], "hotel", "charlie");
    RefWidth([1, 4], "echo", "charlie");
  }

  /** The width of each walk line of the test; "1.3.1 fox trot" is the
      widest, at 14 columns. */
  lemma LineWidths(raw: seq<RawLine>)
    requires WalkLines(raw)
    ensures Width(LineText(raw[0])) == 5 && Width(LineText(raw[1])) == 9
    ensures Width(LineText(raw[2])) == 10 && Width(LineText(raw[3])) == -1
    ensures Width(LineText(raw[4])) == 14 && Width(LineText(raw[5])) == 12
    ensures Width(LineText(raw[6])) == 13 && Width(LineText(raw[7])) == 7
  {
    EntryWidths();
    RefWidths();
  }

  /** Eight lines each within `w` columns. */
  lemma WithinEach(raw: seq<RawLine>, w: int)
    requires |raw| == 8 && Numbered(raw)
    requires Width(LineText(raw[0])) <= w && Width(LineText(raw[1])) <= w
    requires Width(LineText(raw[2])) <= w && Width(LineText(raw[3])) <= w
    requires Width(LineText(raw[4])) <= w && Width(LineText(raw[5])) <= w
    requires Width(LineText(raw[6])) <= w && Width(LineText(raw[7])) <= w
    ensures forall j | 0 <= j < |raw| :: Width(LineText(raw[j])) <= w
  {
    forall j | 0 <= j < |raw|
      ensures Width(LineText(raw[j])) <= w
    {
      assert j == 0 || j == 1 || j == 2 || j == 3 || j == 4 || j == 5 || j == 6 || j == 7;
    }
  }

  /** Each walk line of the test fits 14 columns, and "1.3.1 fox trot"
      takes all 14. */
  lemma ColumnWidths(raw: seq<RawLine>)
    requires WalkLines(raw)
    ensures Width(LineText(raw[4])) == 14
    ensures forall j | 0 <= j < |raw| :: Width(LineText(raw[j])) <= 14
  {
    TestPlain(raw);
    LineWidths(raw);
    WithinEach(raw, 14);
  }

  /** The maximum of the first pass, when one line reaches `w` and none
      goes beyond. */
  lemma MaxWidthIs(lines: seq<string>, k: nat, w: int)
    requires k < |lines| && Width(lines[k]) == w && w >= 0
    requires forall j | 0 <= j < |lines| :: Width(lines[j]) <= w
    ensures MaxWidth(lines) == w
  {
  }

  /** The first pass over the walk's texts, when line `k` reaches `w`
      columns and none goes beyond. */
  lemma MaxOfTexts(raw: seq<RawLine>, k: nat, w: int)
    requires Numbered(raw) && k < |raw| && w >= 0
    requires Width(LineText(raw[k])) == w
    requires forall j | 0 <= j < |raw| :: Width(LineText(raw[j])) <= w
    ensures MaxWidth(Texts(raw)) == w
  {
    var ts := Texts(raw);
    TextsAt(raw);
    forall j | 0 <= j < |ts|
      ensures Width(ts[j]) <= w
    {
      assert ts[j] == LineText(raw[j]);
    }
    assert ts[k] == LineText(raw[k]);
    MaxWidthIs(ts, k, w);
  }

  /** The texts of the walk lines, one by one. */
  lemma TextsAt(raw: seq<RawLine>)
    requires Numbered(raw)
    ensures forall j | 0 <= j < |raw| :: Texts(raw)[j] == LineText(raw[j])
  {
    forall j | 0 <= j < |raw|
      ensures Texts(raw)[j] == LineText(raw[j])
    {
      TextsPrefix(raw, j);
    }
  }

  /** The first pass finds 14, so the leaders run to column 17. */
  lemma TestColumn(raw: seq<RawLine>)
    requires WalkLines(raw)
    ensures Numbered(raw) && MaxWidth(Texts(raw)) == 14
    ensures forall j | 0 <= j < |raw| :: Plain(raw[j]) && 17 >= Width(LineText(raw[j])) + 3
  {
    TestPlain(raw);
    ColumnWidths(raw);
    MaxOfTexts(raw, 4, 14);
  }

  /** The leaders and the indent the printout uses. */
  lemma TestLeaders()
    ensures Leader(6) == " ...... " && Leader(4) == " .... " && Leader(9) == " ......... "
    ensures Repeat(' ', 11) == "           "
  {
    assert Repeat('.', 6) == "......" && Repeat('.', 4) == "...." && Repeat('.', 9) == ".........";
  }

  /** The entries without a reference, as the printout shows them. */
  lemma EntryTexts()
    ensures Dotted([1]) + " " + "ens" == "1 ens" && Dotted([1, 1]) + " " + "bravo" == "1.1 bravo"
    ensures Dotted([1, 3, 1]) + " " + "fox trot" == "1.3.1 fox trot"
    ensures Dotted([1, 3, 2, 2]) + " " + "india" == "1.3.2.2 india"
  {
    TestNumbers();
  }

  /** The entries with a reference and the continuation line, as the
      printout shows them at column 17. */
  lemma RefTexts()
    ensures Dotted([1, 2]) + " " + "charlie" + Leader(17 - Column([1, 2], "charlie")) + "echo"
      == "1.2 charlie ...... echo"
    ensures Repeat(' ', Column([1, 2], "charlie")) + Leader(17 - Column([1, 2], "charlie")) + "hotel"
      == "            ...... hotel"
    ensures Dotted([1, 3, 2, 1]) + " " + "hotel" + Leader(17 - Column([1, 3, 2, 1], "hotel")) + "charlie"
      == "1.3.2.1 hotel .... charlie"
    ensures Dotted([1, 4]) + " " + "echo" + Leader(17 - Column([1, 4], "echo")) + "charlie"
      == "1.4 echo ......... charlie"
  {
    TestNumbers();
    TestLeaders();
  }

  /** The printed entries without a reference. */
  lemma EntriesShown(raw: seq<RawLine>)
    requires WalkLines(raw)
    ensures Numbered(raw)
    ensures var outs := Rewritten(Texts(raw), 17).outs;
      outs[0] == "1 ens" && outs[1] == "1.1 bravo" && outs[4] == "1.3.1 fox trot" && outs[6] == "1.3.2.2 india"
  {
    TestColumn(raw);
    EntryTexts();
    EntryShown(raw, 0, 17);
    EntryShown(raw, 1, 17);
    EntryShown(raw, 4, 17);
    EntryShown(raw, 6, 17);
  }

  /** The printed entries with a reference. */
  lemma RefsShown(raw: seq<RawLine>)
    requires WalkLines(raw)
    ensures Numbered(raw)
    ensures var outs := Rewritten(Texts(raw), 17).outs;
      && outs[2] == "1.2 charlie ...... echo"
      && outs[5] == "1.3.2.1 hotel .... charlie" && outs[7] == "1.4 echo ......... charlie"
  {
    TestColumn(raw);
    RefTexts();
    RefShown(raw, 2, 17);
    RefShown(raw, 5, 17);
    RefShown(raw, 7, 17);
  }

  /** The only continuation line follows charlie's entry, which carries
      a reference. */
  lemma TestChained(raw: seq<RawLine>)
    requires WalkLines(raw)
    ensures Chained(raw) && Anchor(raw, 3) == 2
  {
    forall k | 0 <= k < |raw| && raw[k].Continuation?
      ensures k > 0 && HasRef(raw[k - 1])
    {
      assert k == 0 || k == 1 || k == 2 || k == 3 || k == 4 || k == 5 || k == 6 || k == 7;
    }
  }

  /** The printed continuation line: hotel under charlie's leader. */
  lemma ContinuationLineShown(raw: seq<RawLine>)
    requires WalkLines(raw)
    ensures Numbered(raw) && Rewritten(Texts(raw), 17).outs[3] == "            ...... hotel"
  {
    TestColumn(raw);
    TestChained(raw);
    RefTexts();
    ContinuationShown(raw, 3, 17);
  }

  /** Joining one line more adds it and a newline. */
  lemma JoinPrefix(outs: seq<string>, k: nat)
    requires k < |outs|
    ensures Join(outs[..k + 1]) == Join(outs[..k]) + outs[k] + "\n"
  {
    assert outs[..k + 1][..k] == outs[..k];
  }

  /** Eight lines joined: each followed by a newline. */
  lemma JoinEight(outs: seq<string>)
    requires |outs| == 8
    ensures Join(outs) == outs[0] + "\n" + outs[1] + "\n" + outs[2] + "\n" + outs[3] + "\n"
      + outs[4] + "\n" + outs[5] + "\n" + outs[6] + "\n" + outs[7] + "\n"
  {
    JoinPrefix(outs, 0);
    assert "" + outs[0] == outs[0];
    JoinPrefix(outs, 1);
    JoinPrefix(outs, 2);
    JoinPrefix(outs, 3);
    JoinPrefix(outs, 4);
    JoinPrefix(outs, 5);
    JoinPrefix(outs, 6);
    JoinPrefix(outs, 7);
    assert outs[..0] == [] && outs[..8] == outs;
  }

  /** The expected lines, joined, are the expected text. */
  lemma JoinedLines(outs: seq<string>)
    requires |outs| == 8
    requires outs[0] == "1 ens" && outs[1] == "1.1 bravo" && outs[2] == "1.2 charlie ...... echo"
    requires outs[3] == "            ...... hotel" && outs[4] == "1.3.1 fox trot"
    requires outs[5] == "1.3.2.1 hotel .... charlie" && outs[6] == "1.3.2.2 india"
    requires outs[7] == "1.4 echo ......... charlie"
    ensures Join(outs) == Expected
  {
    JoinEight(outs);
  }

  /** The printed lines of the test's walk. */
  lemma AllShown(raw: seq<RawLine>)
    requires WalkLines(raw)
    ensures Numbered(raw)
    ensures var outs := Rewritten(Texts(raw), 17).outs;
      && |outs| == 8 && outs[0] == "1 ens" && outs[1] == "1.1 bravo" && outs[2] == "1.2 charlie ...... echo"
      && outs[3] == "            ...... hotel" && outs[4] == "1.3.1 fox trot"
      && outs[5] == "1.3.2.1 hotel .... charlie" && outs[6] == "1.3.2.2 india"
      && outs[7] == "1.4 echo ......... charlie"
  {
    EntriesShown(raw);
    RefsShown(raw);
    ContinuationLineShown(raw);
  }

  /** The printout of the test's walk lines is the expected text. */
  lemma TestPrinted(raw: seq<RawLine>)
    requires WalkLines(raw)
    ensures Numbered(raw) && Printed(Texts(raw)) == Expected
  {
    TestColumn(raw);
    AllShown(raw);
    JoinedLines(Rewritten(Texts(raw), 17).outs);
  }

  /** GraphResourceTest.stringifyGraph_FoxTrot: on the test graph,
      stringifyGraph from "ens" returns the expected text. */
  lemma FoxTrotPrintout(incoming: (string, string) -> seq<string>)
    requires IncomingOk(incoming)
    ensures GraphOk(Edges, Kinds) && PrintoutOf(Edges, Kinds, "ens", incoming) == Ok(Expected)
  {
    FoxTrotWalk(incoming);
    var raw := Expansion(Edges, Kinds, "ens", incoming, "ens", [1], {}).lines;
    PrintoutOfWalk(Edges, Kinds, "ens", incoming, raw);
    TestPrinted(raw);
  }
}
