# it-graph: a Dafny model of the graph core

it-graph stores an undirected graph of typed nodes (lexemes, divisions
and oppositions) and edges. It also prints the graph as an outline from a
chosen root. This project models that core in Dafny and proves what it
promises.

- **The printout (GraphService.stringifyGraph).** A depth-first walk
  from the root numbers every reached lexeme with an outline number such
  as `1.3.2`. The walk takes neighbours in ascending id order. A lexeme
  other than the root does not nest into another lexeme; such a link
  becomes a cross-reference written after the entry. A first text pass
  finds the column every dotted leader runs to. A second pass turns each
  cross-reference token into a leader, or into the indent of the last
  leader on a continuation line.
  - Modules: `Counters` (formatCounters), `Outline` (the walk, a `Walker`
    class whose fields are the visited set, the lines and the counters
    the Java code shares between recursive calls), `Layout` (the two text
    passes) and `Printout` (the whole operation and what each printed
    line looks like).
- **The persistent node (`Entity`, Node.java in the root package).** Its
  neighbour set is kept on both ends. Equality, hashing and ordering go
  by id.
- **The edge and node values of the edge and node packages (`EdgeValue`,
  `NodeValue`).** Their setters refuse null, blank or negative input.
  Edge equality ignores orientation.
- **The graph container (`Graphs`, Graph.java).**
- **The grouping loop of NodeRepository.findAllNodes (`Repository`).** It
  folds the rows of the node/edge join into one record per node.
- **The edge endpoints (`EdgeResource`, edge/EdgeResource.java).** Create
  checks its guards in order. Delete accepts either orientation.
- **Shared definitions.** `Base` holds Option, Result, the errors and
  NodeType. `Text` holds the Java String operations used: compareTo,
  indexOf, replace, repeat, isBlank and Integer.toString.

Where a test expects something the code does not do, the model follows
the code:

- GraphResourceTest.stringifyGraph_FoxTrot expects the lines `1.3.0 *` and
  `1.3.2.0 *` for the divisions delta and golf
  (src/test/java/com/probendi/itgraph/GraphResourceTest.java:157 and 159).
  stringify writes no line for a division or opposition. It only pushes a
  counter (GraphService.java:169-175), and so does the model
  (`Outline.OwnLines`). `FoxTrot.FoxTrotPrintout` derives the printout for
  that test's graph: it is the expected text without those two lines.
- Node.setEdges clears only the node's own set. A former neighbour that
  is not in the new set still lists the node. `Entity.Node.SetEdges`
  states exactly that.

## Model

| member | source | states |
|---|---|---|
| Printout.StringifyGraph | src/main/java/com/probendi/itgraph/GraphService.java:80-116 | An unknown root gives an IllegalArgument error, and only an unknown root does. Otherwise the text is the two-pass printout of the lines of the reference recursion `Expansion` from the root over the graph's neighbour sets (`PrintoutOf`). The entries name each reached lexeme once, in expansion order from the root. Each entry carries its node's outline number; distinct nodes get distinct numbers, and the root's number is 1. A continuation line only follows a line with a reference. |
| Printout.WalkFromRoot | src/main/java/com/probendi/itgraph/GraphService.java:83-86 | The walk from the root with counters [1] leaves exactly the lines of `Expansion` from the root with counters [1] and nothing visited, and its texts are what is laid out. It expands the root first, and its lines meet the outcome described for StringifyGraph. |
| Printout.Widths | src/main/java/com/probendi/itgraph/GraphService.java:88-95 | The target column the first pass picks is at least 3 past the measured width of every walk line. |
| Printout.EntryShown | src/main/java/com/probendi/itgraph/GraphService.java:97-115 | An entry without a cross-reference prints as its dotted number, a space and its id. |
| Printout.RefShown | src/main/java/com/probendi/itgraph/GraphService.java:103-111 | An entry with a cross-reference prints as its number, its id, a leader of at least 2 dots ending at the target column, then the reference. The 3-dot fallback is never taken. |
| Printout.ContinuationShown | src/main/java/com/probendi/itgraph/GraphService.java:99-110 | A continuation line prints as the indent and leader of the nearest entry above it, then its reference. That entry always carries a reference. |
| Printout.ShownAt | src/main/java/com/probendi/itgraph/GraphService.java:97-115 | The k-th printed line shows the k-th walk line, with the indent remembered after the lines above it. |
| Printout.RenderedSpaces | src/main/java/com/probendi/itgraph/GraphService.java:98-111 | The indent the second pass remembers after any prefix of the walk lines is the one the walk lines determine: an entry clears it, an entry's leader sets it, and a continuation keeps it. |
| Printout.AnchorIndent | src/main/java/com/probendi/itgraph/GraphService.java:99-110 | Above a continuation line, the nearest entry has a reference, and its leader is the indent in force. |
| Printout.LineStep | src/main/java/com/probendi/itgraph/GraphService.java:99-113 | The second pass on any walk line with plain ids gives its shown form and the next indent. |
| Layout.TargetColumn | src/main/java/com/probendi/itgraph/GraphService.java:88-95 | The loop returns 3 plus the largest measured width. A line's width is the token's index minus 1, or the full length if there is no token. The result is never below 3. |
| Layout.MaxWidth | src/main/java/com/probendi/itgraph/GraphService.java:88-94 | The maximum is at least every line's width and is attained by some line, unless it is 0. |
| Layout.Render | src/main/java/com/probendi/itgraph/GraphService.java:97-115 | The loop's text is each rewritten line followed by a newline. The indent resets on a digit-led line and is replaced after each leader. |
| Layout.Leader | src/main/java/com/probendi/itgraph/GraphService.java:107-108 | A leader is c dots, or 3 when c is not positive, between two spaces. |
| Layout.LeaderFound | src/main/java/com/probendi/itgraph/GraphService.java:109-110 | The leader just written is found again, no later than the token was. |
| Layout.LeaderLine | src/main/java/com/probendi/itgraph/GraphService.java:103-111 | Take a line whose only token sits after column 0, with the target at least 3 past its width. Its leader has at least 2 dots and ends at the target column. The remembered indent becomes that many spaces plus the leader. |
| Layout.ContinuationLine | src/main/java/com/probendi/itgraph/GraphService.java:104-105 | A line that starts with its only token becomes the remembered indent plus the rest of the line, and keeps that indent. |
| Layout.PlainLine | src/main/java/com/probendi/itgraph/GraphService.java:100-103 | A line without a token is written unchanged. It clears the indent exactly when it starts with a digit. |
| Layout.RenderedLines | src/main/java/com/probendi/itgraph/GraphService.java:113-115 | Lines without newlines produce a text with exactly one newline per line. |
| Layout.RewrittenAt | src/main/java/com/probendi/itgraph/GraphService.java:99-113 | The k-th output line is the second pass's step on the k-th input line. |
| Outline.Walker.Stringify | src/main/java/com/probendi/itgraph/GraphService.java:128-191 | A visited node changes nothing. An unvisited node is expanded next with the current counters as its number, and everything expanded afterwards lies in its subtree. Every neighbour that may nest ends up visited. The children it expands itself are in ascending order and numbered with its number extended by 1, 2, ... The visited set it leaves and the lines it appends are exactly those of `Expansion` from the node with the current counters and visited set. |
| Outline.Walker.Expand | src/main/java/com/probendi/itgraph/GraphService.java:136-190 | For a node not yet visited: the same expansion facts, and the same agreement with `Expansion`. |
| Outline.Walker.Open | src/main/java/com/probendi/itgraph/GraphService.java:136-175 | The node is marked and given the current counters. Its neighbours are listed in ascending order. A 0 is pushed exactly when some neighbour is unvisited. The lines appended are exactly the node's own lines. |
| Outline.Walker.Mark | src/main/java/com/probendi/itgraph/GraphService.java:136-167 | The node is visited, numbered and appended to the order. Exactly its own lines are appended: nothing for a division or opposition; for a lexeme, its entry plus its references unless it is the root. |
| Outline.Walker.AddNeighbourRefs | src/main/java/com/probendi/itgraph/GraphService.java:144-155 | The lexeme neighbours, in the given order, become references. The first is put on the entry line and the others on continuation lines. "first" is still set exactly when there were none. |
| Outline.Walker.AddIncomingRefs | src/main/java/com/probendi/itgraph/GraphService.java:157-165 | Every id from the incoming-lexemes query is added as a reference after those already there. |
| Outline.Walker.PushIfUnvisited | src/main/java/com/probendi/itgraph/GraphService.java:169-175 | A 0 is pushed onto the counters exactly when some neighbour is unvisited. Otherwise the counters are unchanged. |
| Outline.Walker.WalkChildren | src/main/java/com/probendi/itgraph/GraphService.java:177-190 | Every sorted neighbour that may nest ends up visited. The expanded children are ascending and numbered c.1, c.2, ... Every node expanded meanwhile is numbered inside the subtree of c. The visited set and the appended lines are exactly those of `Children`, the reference walk over the sorted neighbours. |
| Outline.Walker.VisitChild | src/main/java/com/probendi/itgraph/GraphService.java:182-187 | The last counter goes up by one and the child is expanded with that number. Afterwards the counters are restored to their value just after the increment. |
| Outline.Walker.Facts | src/main/java/com/probendi/itgraph/GraphService.java:133-140 | Between expansions, the entries name the expanded lexemes in order and without repeats. Each entry carries its node's number, numbers are injective, and continuation lines follow a line with a reference. |
| Outline.Ascending | src/main/java/com/probendi/itgraph/GraphService.java:146 | sorted() yields exactly the neighbour ids. |
| Outline.AscendingSorted | src/main/java/com/probendi/itgraph/GraphService.java:146 | The neighbours come out strictly ascending by compareTo, so each once. |
| Outline.AnyUnseenIff | src/main/java/com/probendi/itgraph/GraphService.java:169-175 | The search for an unvisited neighbour succeeds exactly when one exists. |
| Outline.Expansion | src/main/java/com/probendi/itgraph/GraphService.java:128-191 | The reference recursion for stringify: the visited set only grows and then holds the node, and every entry it writes has an outline number. |
| Outline.SortedUnique | src/main/java/com/probendi/itgraph/GraphService.java:178 | Two strictly ascending sequences with the same elements are equal, so the sorted order is determined. |
| Counters.FormatCounters | src/main/java/com/probendi/itgraph/GraphService.java:199-203 | The loop's result is the counters, dot-joined in decimal. |
| Counters.CountersRoundTrip | src/main/java/com/probendi/itgraph/GraphService.java:199-203 | A dot-joined outline number reads back as the same number, so distinct numbers print differently. |
| Counters.ExampleFormat | src/main/java/com/probendi/itgraph/GraphService.java:193-198 | The counters 1, 3, 2 are written "1.3.2". |
| Entity.Node.constructor | src/main/java/com/probendi/itgraph/Node.java:45-50 | Stores the id, x, y and type, with no edges. |
| Entity.Node.AddEdge | src/main/java/com/probendi/itgraph/Node.java:98-102 | Each node is added to the other's set, and the node itself is returned. Only those two edge sets change; ids, coordinates and types stay. |
| Entity.Node.RemoveEdge | src/main/java/com/probendi/itgraph/Node.java:104-107 | Each node is removed from the other's set. Only those two edge sets change. |
| Entity.Node.SetEdges | src/main/java/com/probendi/itgraph/Node.java:92-96 | Afterwards the node's set is exactly the given nodes, and each of them lists the node. A given node gains only this node. A former neighbour that was left out keeps its set unchanged. Only edge sets change. |
| Entity.Node.RemoveEdges | src/main/java/com/probendi/itgraph/Node.java:140-143 | The node's set ends empty, and every former neighbour has lost exactly this node. Only the edge sets of the node and its former neighbours change. |
| Entity.Node.Equals | src/main/java/com/probendi/itgraph/Node.java:110-115 | Equal exactly when the ids are equal. |
| Entity.Node.HashCode | src/main/java/com/probendi/itgraph/Node.java:117-120 | Objects.hash(id) is an int, computed with 32-bit wrap-around. |
| Entity.Node.CompareTo | src/main/java/com/probendi/itgraph/Node.java:132-135 | Zero exactly for equal nodes, and negative exactly when this id sorts first. |
| Entity.EqualsHashCode | src/main/java/com/probendi/itgraph/Node.java:110-120 | Equal nodes have equal hash codes. |
| Entity.CompareToAntisymmetric | src/main/java/com/probendi/itgraph/Node.java:132-135 | Swapping the operands negates compareTo. |
| Entity.CompareToTransitive | src/main/java/com/probendi/itgraph/Node.java:132-135 | compareTo is transitive. |
| Entity.Wrap32 | src/main/java/com/probendi/itgraph/Node.java:117-120 | The result is the int32 value congruent to the input modulo 2^32. |
| EdgeValue.Edge.constructor | src/main/java/com/probendi/itgraph/edge/Edge.java:18-21 | Stores both ends as given, unchecked. |
| EdgeValue.Edge.SetSource | src/main/java/com/probendi/itgraph/edge/Edge.java:27-33 | A null or blank source fails, with the message "source cannot be null or blank", and changes nothing. Any other source is set and the edge is returned. The target never changes. |
| EdgeValue.Edge.SetTarget | src/main/java/com/probendi/itgraph/edge/Edge.java:39-45 | The same for the target, with "target cannot be null or blank". |
| EdgeValue.Edge.Equals | src/main/java/com/probendi/itgraph/edge/Edge.java:47-53 | Equal exactly when both edges have the same ends as an unordered pair. |
| EdgeValue.PairEnds | src/main/java/com/probendi/itgraph/edge/Edge.java:51-52 | Two-element multisets are equal exactly when their elements match in the same or in the swapped order. |
| EdgeValue.EqualsReversed | src/main/java/com/probendi/itgraph/edge/Edge.java:51-52 | An edge equals its reverse, in both directions. |
| EdgeValue.EqualsEquivalence | src/main/java/com/probendi/itgraph/edge/Edge.java:47-53 | Edge equality is reflexive, symmetric and transitive. |
| NodeValue.FirstRefusal | src/main/java/com/probendi/itgraph/node/Node.java:21-26 | There is no refusal exactly when the id is present and not blank, x and y are non-negative and the type is present. Any refusal is an IllegalArgument. |
| NodeValue.NewNode | src/main/java/com/probendi/itgraph/node/Node.java:21-26 | Fails exactly when some setter refuses, with the first refusal in the order id, x, y, type. Otherwise it is a fresh node holding the arguments. |
| NodeValue.Node.SetId | src/main/java/com/probendi/itgraph/node/Node.java:32-38 | A null or blank id fails, with "id cannot be null or blank", and changes nothing. Otherwise only the id is set. |
| NodeValue.Node.SetX | src/main/java/com/probendi/itgraph/node/Node.java:44-50 | A negative x fails, with "x cannot be negative", and changes nothing. Otherwise only x is set. |
| NodeValue.Node.SetY | src/main/java/com/probendi/itgraph/node/Node.java:56-62 | A negative y fails, with "y cannot be negative", and changes nothing. Otherwise only y is set. |
| NodeValue.Node.SetType | src/main/java/com/probendi/itgraph/node/Node.java:68-74 | A null type fails, with "type cannot be null", and changes nothing. Otherwise only the type is set. |
| NodeValue.Node.Equals | src/main/java/com/probendi/itgraph/node/Node.java:76-81 | Equal exactly when the (possibly null) ids are equal. |
| NodeValue.EqualsEquivalence | src/main/java/com/probendi/itgraph/node/Node.java:76-81 | Node equality is reflexive, symmetric and transitive. |
| Graphs.Graph.constructor | src/main/java/com/probendi/itgraph/Graph.java:18-19 | A new graph is empty. |
| Graphs.Graph.SetNodes | src/main/java/com/probendi/itgraph/Graph.java:25-29 | The nodes become the given list, in order, and the edges stay. The graph is then empty exactly when both lists are. |
| Graphs.Graph.SetEdges | src/main/java/com/probendi/itgraph/Graph.java:35-39 | The edges become the given list and the nodes stay. Emptiness works the same way. |
| Graphs.Graph.Equals | src/main/java/com/probendi/itgraph/Graph.java:41-46 | Equal exactly when the node lists and the edge lists are equal element by element. |
| Graphs.EqualsEmpty | src/main/java/com/probendi/itgraph/Graph.java:66-68 | Equal graphs are both empty or both non-empty. |
| FoxTrot.FoxTrotWalk | src/test/java/com/probendi/itgraph/GraphResourceTest.java:151-165 | On that test's graph, the walk from "ens" gives exactly eight lines: the entries with their outline numbers and references, and the continuation for hotel. |
| FoxTrot.FoxTrotPrintout | src/test/java/com/probendi/itgraph/GraphResourceTest.java:151-175 | On that test's graph, stringifyGraph from "ens" returns the expected text, minus the two `<n>.0 *` lines the code never writes. |
| Repository.FindAllNodes | src/main/java/com/probendi/itgraph/NodeRepository.java:64-83 | Fails exactly when some row's type name is not a constant, and then with valueOf's error for the first such row. Otherwise it returns one record per id, in first-appearance order. Position and type come from the id's first row; the edges are one per row of that id with a target. |
| Repository.OnePerId | src/main/java/com/probendi/itgraph/NodeRepository.java:73-77 | Every row's id has a record, and no two records share an id. |
| Repository.FirstRowWins | src/main/java/com/probendi/itgraph/NodeRepository.java:73-77 | A record's x, y and type are those of the first row of its id. |
| Repository.EdgeTotal | src/main/java/com/probendi/itgraph/NodeRepository.java:78-80 | The records together hold exactly one edge per row with a target. |
| Repository.Ids | src/main/java/com/probendi/itgraph/NodeRepository.java:73-77 | The keys are distinct, every row's id is among them, and each key occurs in the rows. |
| Repository.EdgesOf | src/main/java/com/probendi/itgraph/NodeRepository.java:78-80 | Every edge a record gets starts at the record's own id. |
| Base.ParseTypeAccepts | src/main/java/com/probendi/itgraph/NodeRepository.java:70 | valueOf accepts exactly "LEXEME", "DIVISION" and "OPPOSITION", and gives the constant of that name. Anything else is an IllegalArgument. |
| Base.ParseTypeName | src/main/java/com/probendi/itgraph/NodeType.java:9-22 | Parsing a constant's name gives back that constant. |
| EdgeResource.Created | src/main/java/com/probendi/itgraph/edge/EdgeResource.java:36-50 | Succeeds exactly when the ends differ, both nodes exist and neither orientation is stored; the table then gains just the new pair. Every refusal is a BadRequest. |
| EdgeResource.Deleted | src/main/java/com/probendi/itgraph/edge/EdgeResource.java:57-64 | Fails with NotFound exactly when neither orientation is stored. Otherwise exactly one stored orientation is removed. |
| EdgeResource.Store.Create | src/main/java/com/probendi/itgraph/edge/EdgeResource.java:36-52 | Acts on the edge table as Created says and changes nothing on a refusal. The node table is unchanged, and a sound table stays sound. |
| EdgeResource.Store.Delete | src/main/java/com/probendi/itgraph/edge/EdgeResource.java:57-66 | Acts on the edge table as Deleted says. Nodes are unchanged, and soundness is kept. |
| EdgeResource.CreateSound | src/main/java/com/probendi/itgraph/edge/EdgeResource.java:37-50 | A successful create keeps the table free of self-loops, of doubled pairs in either orientation and of dangling ends. |
| EdgeResource.DeleteUndoesCreate | src/main/java/com/probendi/itgraph/edge/EdgeResource.java:36-64 | A delete in either orientation right after a create restores the table. |
| EdgeResource.DeleteClears | src/main/java/com/probendi/itgraph/edge/EdgeResource.java:57-64 | In a sound table, a delete leaves neither orientation of the pair. |
| EdgeResource.CreateAfterDelete | src/main/java/com/probendi/itgraph/edge/EdgeResource.java:36-64 | In a sound table, a create of the same pair right after a delete succeeds, and the table gains the pair in the create's orientation. |

## Left out

- Persistence is not modelled. The database, JPA and the native SQL query are left out. findAllNodes takes the rows of the join as its input, and the edge endpoints act on sets of node ids and edge pairs.
- The edge service calls that the endpoints make are left out. Their effect on the edge table is modelled, but their SQL and transactions are not.
- Repository.FindAllNodes returns the records in the order their ids first appear. Java's HashMap.values() has an unspecified order, which the model does not reproduce. The records themselves and their edge lists (in row order) are the same.
- Repository.FindAllNodes: the record's edge list, which the map shares, is updated by value, not in place. A null id, coordinate or type name in a row (a NullPointerException in the Java code) is not modelled, since the schema does not allow them.
- NodeService.findIncomingLexemes is an opaque function parameter (`incoming`). Its query is not part of this model.
- The walk is modelled on a snapshot of the graph: each node's neighbour set and type (`GraphOk`). The lazy loading of Node.getEdges() is not modelled.
- Printout.RefShown, Printout.ContinuationShown and Printout.EntryShown assume that ids hold no '<', no newline and no leader start (" ." or a leading '.'). Without that, a token or leader could be found inside an id, and the shown form would differ. StringifyGraph itself has no such assumption.
- Entity.Node.HashCode and Entity.Node.CompareTo treat a string as a sequence of chars. Java counts UTF-16 code units, so ids with characters outside the Basic Multilingual Plane compare and hash differently.
- Outline.Ascending, Layout.TargetColumn, Layout.MaxWidth and Printout.StringifyGraph also treat a string as a sequence of Unicode characters, not UTF-16 code units. This gives two differences for ids outside the Basic Multilingual Plane:
  - Sort order (GraphService.java:146 and 178): the model puts U+FFFF before U+10000. Java compares U+10000's first code unit 0xD800 with 0xFFFF, so it sorts them the other way.
  - Padding (GraphService.java:89-112): each such character adds 1 to Java's length() and indexOf results but not to the model's widths. The leaders then have a different number of dots.
- Entity.Node.AddEdge, Entity.Node.RemoveEdge, Entity.Node.SetEdges and Entity.Node.RemoveEdges use object identity for set membership. Java's HashSet add and remove match elements by equals, that is by id; the two agree when one object exists per id, as in a persistence context. RemoveEdges removes neighbours in an arbitrary order; the TreeSet order makes no difference to the result.
- Entity.Node.SetEdges takes the new neighbours as a set value. In Java the argument may be the node's own set: `n.setEdges(n.getEdges())` clears that set at Node.java:93 before iterating it, so the node ends with no edges. The model does not capture that aliasing.
- Edge.hashCode (edge/Edge.java:55-58) is left out. It hashes the ordered pair, so reversed edges that are equal may hash differently. The model does not claim hash agreement for edges.
- The root-package Node's no-argument constructor and its null id are left out. The model's id is always a string.
- Node x and y are unbounded integers. Java's int overflow is not modelled.
- Bean validation annotations such as @NotBlank and @NotNull are not modelled. This covers the node fields and also the `@NotBlank root` parameter of stringifyGraph (GraphService.java:80). Java rejects a blank root before the method body runs. The model's Printout.StringifyGraph instead reports a blank root as an unknown root, an IllegalArgument.
- The EdgeDTO of a create is assumed to hold non-null strings. A blank end is not rejected up front, because create's parameter has no @Valid (edge/EdgeResource.java:36). It fails the node lookup like any unknown id, as EdgeResource.Created computes.
- HTTP status codes and the ErrorResponse mapping are left out. Errors are modelled as IllegalArgument, BadRequest and NotFound values carrying the source's messages. The exception for an unknown root (GraphService.java:81, `IllegalArgumentException::new`) has no message; the model writes the empty string in its place.
- After a create or delete, the endpoint returns graph.generateGraph(). This model returns unit instead; generateGraph is not part of it.
- Character.isDigit (GraphService.java:100) is modelled for ASCII digits only. Outline numbers begin with an ASCII digit, so the digit check that resets the indent behaves the same for every line the walk writes. It only differs for other Unicode digits, and the walk never writes one at a line's start.
- The Graph resource and node resource endpoints, uploadGraph, clearGraph and generateGraph are not modelled.
- edge/EdgeResource.java does not compile as written against the other classes. It calls isEmpty() on the nullable Node that NodeService.findNode returns and isPresent() on the nullable Edge that EdgeService.findEdge returns. It passes an EdgeDTO to createEdge(Edge) and calls graph.generateGraph(), which Graph.java does not declare. EdgeResource.Created and EdgeResource.Deleted read each presence test as a null check and each creation as storing the pair.
