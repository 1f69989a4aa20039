/** The grouping loop of NodeRepository.findAllNodes: the rows of the
    join of nodes with their outgoing edges, one row per node and edge
    (or one row with no target for a node without edges), folded into
    one node record per id. */
module Repository {
  import opened Base
  import opened Text
  import opened Records

  /** A row of the join: id, x, y, the type's name and the target of one
      outgoing edge, if any. */
  datatype Row = Row(id: string, x: int, y: int, kind: string, target: Option<string>)

  /** The distinct ids of the rows, in the order they first appear. */
  function Ids(rows: seq<Row>): (ids: seq<string>)
    ensures Distinct(ids)
    ensures forall j | 0 <= j < |rows| :: rows[j].id in ids
    ensures forall k | 0 <= k < |ids| :: FirstIndex(rows, ids[k]) >= 0
  {
    if rows == [] then []
    else
      var init := rows[..|rows| - 1];
      var last := rows[|rows| - 1];
      var ids := Ids(init);
      if last.id in ids then ids else ids + [last.id]
  }

  /** The index of the first row with this id, or -1. */
  function FirstIndex(rows: seq<Row>, id: string): (k: int)
    ensures -1 <= k < |rows|
    ensures k >= 0 ==> rows[k].id == id
    ensures forall i | 0 <= i < |rows| && (k < 0 || i < k) :: rows[i].id != id
  {
    if rows == [] then -1
    else
      var k := FirstIndex(rows[..|rows| - 1], id);
      if k >= 0 then k
      else if rows[|rows| - 1].id == id then |rows| - 1
      else -1
  }

  /** The edges the rows give this id: one per row of that id with a
      target, in row order. */
  function EdgesOf(rows: seq<Row>, id: string): (es: seq<Edge>)
    ensures |es| <= |rows|
    ensures forall e | e in es :: e.source == id
  {
    if rows == [] then []
    else
      var last := rows[|rows| - 1];
      EdgesOf(rows[..|rows| - 1], id)
        + (if last.id == id && last.target.Some? then [Edge(id, last.target.value)] else [])
  }

  /** NodeType.valueOf refuses the row's type name. */
  predicate Refused(row: Row)
  {
    ParseType(row.kind).Err?
  }

  /** NodeType.valueOf accepts the type name of every row. */
  predicate AllKnown(rows: seq<Row>)
  {
    forall j | 0 <= j < |rows| :: !Refused(rows[j])
  }

  /** The record for an id that occurs: position and type from its first
      row, edges from all its rows. */
  function Dto(rows: seq<Row>, id: string): NodeDto
    requires AllKnown(rows) && FirstIndex(rows, id) >= 0
  {
    var first := rows[FirstIndex(rows, id)];
    NodeDto(id, first.x, first.y, ParseType(first.kind).value, EdgesOf(rows, id))
  }

  /** The records, one per id in the order the ids first appear. */
  function Grouped(rows: seq<Row>): seq<NodeDto>
    requires AllKnown(rows)
  {
    var ids := Ids(rows);
    seq(|ids|, k requires 0 <= k < |ids| => Dto(rows, ids[k]))
  }

  /** findAllNodes' loop: a type name that is not a constant raises the
      IllegalArgumentException of NodeType.valueOf for the first such
      row; otherwise the result is one record per id. */
  method FindAllNodes(rows: seq<Row>) returns (r: Result<seq<NodeDto>>)
    ensures r.Err? <==> !AllKnown(rows)
    ensures r.Err? ==> exists j | 0 <= j < |rows| ::
      && Refused(rows[j]) && AllKnown(rows[..j]) && r.error == ParseType(rows[j].kind).error
    ensures r.Ok? ==> AllKnown(rows) && r.value == Grouped(rows)
  {
    var byId: map<string, NodeDto> := map[];
    var keys: seq<string> := [];
    for i := 0 to |rows|
      invariant Folded(rows[..i], keys, byId)
    {
      var row := rows[i];
      var t := ParseType(row.kind);
      if t.Err? {
        assert Refused(rows[i]) && AllKnown(rows[..i]);
        return Err(t.error);
      }
      // The record is created with the first row of its id; the edge
      // list is shared with the map, so the edge is added in place.
      var dto: NodeDto;
      if row.id in byId {
        dto := byId[row.id];
      } else {
        dto := NodeDto(row.id, row.x, row.y, t.value, []);
      }
      if row.target.Some? {
        dto := dto.(edges := dto.edges + [Edge(row.id, row.target.value)]);
      }
      FoldRow(rows, i, keys, byId, dto);
      if row.id !in byId {
        keys := keys + [row.id];
      }
      byId := byId[row.id := dto];
    }
    assert rows[..|rows|] == rows;
    FoldedAll(rows, keys, byId);
    r := Ok(Listed(keys, byId));
  }

  /** new ArrayList<>(map.values()), taken in the order the keys were
      first put. */
  function Listed(keys: seq<string>, byId: map<string, NodeDto>): (l: seq<NodeDto>)
    requires forall k | 0 <= k < |keys| :: keys[k] in byId
    ensures |l| == |keys|
  {
    seq(|keys|, k requires 0 <= k < |keys| => byId[keys[k]])
  }

  /** Once every row is folded in, the stored records are the grouped
      records. */
  lemma FoldedAll(rows: seq<Row>, keys: seq<string>, byId: map<string, NodeDto>)
    requires Folded(rows, keys, byId)
    ensures forall k | 0 <= k < |keys| :: keys[k] in byId
    ensures Listed(keys, byId) == Grouped(rows)
  {
    forall k | 0 <= k < |keys|
      ensures keys[k] in byId && byId[keys[k]] == Grouped(rows)[k]
    {
      assert FirstIndex(rows, keys[k]) >= 0;
    }
  }

  /** The loop's state after the rows `p`: the ids in order of first
      appearance, and the record of each. */
  ghost predicate Folded(p: seq<Row>, keys: seq<string>, byId: map<string, NodeDto>)
  {
    && AllKnown(p)
    && keys == Ids(p)
    && (forall id :: id in byId <==> FirstIndex(p, id) >= 0)
    && (forall id | id in byId :: byId[id] == Dto(p, id))
  }

  /** The loop body: row i, of a known type, creates or extends the
      record of its id. */
  lemma FoldRow(rows: seq<Row>, i: nat, keys: seq<string>, byId: map<string, NodeDto>, dto: NodeDto)
    requires i < |rows| && Folded(rows[..i], keys, byId) && !Refused(rows[i])
    requires var row := rows[i];
      var d := if row.id in byId then byId[row.id]
        else NodeDto(row.id, row.x, row.y, ParseType(row.kind).value, []);
      dto == if row.target.Some? then d.(edges := d.edges + [Edge(row.id, row.target.value)]) else d
    ensures Folded(rows[..i + 1], if rows[i].id in byId then keys else keys + [rows[i].id],
                   byId[rows[i].id := dto])
  {
    var p := rows[..i];
    var row := rows[i];
    assert rows[..i + 1] == p + [row];
    assert AllKnown(p + [row]) by {
      assert forall j | 0 <= j < i :: (p + [row])[j] == p[j];
    }
    GroupStep(p, row, row.id);
    FoldStep(p, row, keys, byId, dto);
  }

  /** Storing the record of the row's id, new or extended, keeps the
      loop's state in step with the rows. */
  lemma FoldStep(p: seq<Row>, row: Row, keys: seq<string>, byId: map<string, NodeDto>, dto: NodeDto)
    requires Folded(p, keys, byId) && AllKnown(p + [row])
    requires dto == Dto(p + [row], row.id)
    ensures Folded(p + [row], if row.id in byId then keys else keys + [row.id], byId[row.id := dto])
  {
    var q := p + [row];
    var stored := byId[row.id := dto];
    forall id | id != row.id
      ensures id in stored <==> FirstIndex(q, id) >= 0
      ensures id in stored ==> stored[id] == Dto(q, id)
    {
      OtherId(p, row, id);
    }
    GroupStep(p, row, row.id);
    IdsStep(p, row);
  }

  /** A further row leaves the record of any other id as it is. */
  lemma OtherId(p: seq<Row>, row: Row, id: string)
    requires AllKnown(p + [row]) && id != row.id
    ensures AllKnown(p)
    ensures FirstIndex(p + [row], id) == FirstIndex(p, id)
    ensures FirstIndex(p, id) >= 0 ==> Dto(p + [row], id) == Dto(p, id)
  {
    var q := p + [row];
    assert q[..|p|] == p && q[|p|] == row;
    assert forall j | 0 <= j < |p| :: q[j] == p[j];
  }

  /** A further row leaves the ids as they are, or adds its own at the
      end when it is the first of that id. */
  lemma IdsStep(p: seq<Row>, row: Row)
    ensures Ids(p + [row]) == if FirstIndex(p, row.id) >= 0 then Ids(p) else Ids(p) + [row.id]
  {
    var q := p + [row];
    assert q[..|p|] == p && q[|p|] == row;
    var f := FirstIndex(p, row.id);
    if f >= 0 {
      assert p[f].id == row.id;
    }
  }

  /** A further row, of a good type, changes only the record of its own
      id: it creates it with the row's position and type when the id is
      new, and adds the row's edge, if any. */
  lemma GroupStep(p: seq<Row>, row: Row, id: string)
    requires AllKnown(p + [row])
    ensures AllKnown(p) && !Refused(row)
    ensures FirstIndex(p + [row], id) >= 0 <==> FirstIndex(p, id) >= 0 || id == row.id
    ensures var added := if id == row.id && row.target.Some? then [Edge(id, row.target.value)] else [];
      && (FirstIndex(p, id) >= 0 ==> Dto(p + [row], id) == Dto(p, id).(edges := Dto(p, id).edges + added))
      && (FirstIndex(p, id) < 0 && id == row.id ==>
            Dto(p + [row], id) == NodeDto(id, row.x, row.y, ParseType(row.kind).value, added))
  {
    var q := p + [row];
    assert q[..|p|] == p && q[|p|] == row;
    assert AllKnown(p);
    var f := FirstIndex(p, id);
    if f >= 0 {
      assert FirstIndex(q, id) == f && q[f] == p[f];
    } else if id == row.id {
      assert FirstIndex(q, id) == |p|;
      EdgesAbsent(p, id);
    }
  }

  /** One record per distinct id: every row's id has a record, and no
      two records share an id. */
  lemma OnePerId(rows: seq<Row>)
    requires AllKnown(rows)
    ensures var g := Grouped(rows);
      && (forall j | 0 <= j < |rows| :: exists k | 0 <= k < |g| :: g[k].id == rows[j].id)
      && (forall k, l | 0 <= k < l < |g| :: g[k].id != g[l].id)
  {
    var g := Grouped(rows);
    var ids := Ids(rows);
    forall j | 0 <= j < |rows|
      ensures exists k | 0 <= k < |g| :: g[k].id == rows[j].id
    {
      var k :| 0 <= k < |ids| && ids[k] == rows[j].id;
      assert g[k].id == ids[k];
    }
  }

  /** A record's position and type come from the first row of its id;
      later rows of the same id never change them. */
  lemma FirstRowWins(rows: seq<Row>, k: nat, j: nat)
    requires AllKnown(rows) && k < |Grouped(rows)| && j < |rows|
    requires rows[j].id == Grouped(rows)[k].id
    requires forall i | 0 <= i < j :: rows[i].id != rows[j].id
    ensures var d := Grouped(rows)[k];
      d.x == rows[j].x && d.y == rows[j].y && Ok(d.kind) == ParseType(rows[j].kind)
  {
    var f := FirstIndex(rows, rows[j].id);
    assert f == j;
  }

  /** The number of rows with a target. */
  function TargetRows(rows: seq<Row>): (n: nat)
    ensures n <= |rows|
  {
    if rows == [] then 0
    else TargetRows(rows[..|rows| - 1]) + (if rows[|rows| - 1].target.Some? then 1 else 0)
  }

  /** The number of edges the records hold together. */
  function TotalEdges(g: seq<NodeDto>): nat
  {
    if g == [] then 0 else TotalEdges(g[..|g| - 1]) + |g[|g| - 1].edges|
  }

  /** The records hold one edge per row with a target, no more, no less. */
  lemma EdgeTotal(rows: seq<Row>)
    requires AllKnown(rows)
    ensures TotalEdges(Grouped(rows)) == TargetRows(rows)
  {
    var ids := Ids(rows);
    TotalOf(Grouped(rows), rows, ids);
    SumAll(rows);
  }

  /** The edges the rows give the ids of `ids`, summed. */
  function SumEdges(rows: seq<Row>, ids: seq<string>): nat
  {
    if ids == [] then 0 else SumEdges(rows, ids[..|ids| - 1]) + |EdgesOf(rows, ids[|ids| - 1])|
  }

  lemma {:induction false} TotalOf(g: seq<NodeDto>, rows: seq<Row>, ids: seq<string>)
    requires |g| == |ids| && forall k | 0 <= k < |g| :: g[k].edges == EdgesOf(rows, ids[k])
    ensures TotalEdges(g) == SumEdges(rows, ids)
  {
    if g != [] {
      TotalOf(g[..|g| - 1], rows, ids[..|ids| - 1]);
    }
  }

  /** Summed over the distinct ids, the edges count the rows with a
      target. */
  lemma {:induction false} SumAll(rows: seq<Row>)
    ensures SumEdges(rows, Ids(rows)) == TargetRows(rows)
  {
    if rows != [] {
      var init := rows[..|rows| - 1];
      var last := rows[|rows| - 1];
      var ids := Ids(init);
      SumAll(init);
      SumSnoc(rows, ids);
      if last.id !in ids {
        EdgesAbsent(init, last.id);
        assert (ids + [last.id])[..|ids|] == ids;
        assert SumEdges(rows, ids + [last.id]) == SumEdges(rows, ids) + |EdgesOf(rows, last.id)|;
      }
    }
  }

  /** The last row changes only the edges of its own id, by one edge
      when it has a target. */
  lemma {:induction false} SumSnoc(rows: seq<Row>, ids: seq<string>)
    requires rows != [] && Distinct(ids)
    ensures var last := rows[|rows| - 1];
      SumEdges(rows, ids)
      == SumEdges(rows[..|rows| - 1], ids) + (if last.id in ids && last.target.Some? then 1 else 0)
  {
    if ids != [] {
      var init := ids[..|ids| - 1];
      assert Distinct(init);
      SumSnoc(rows, init);
      assert ids == init + [ids[|ids| - 1]];
      assert ids[|ids| - 1] !in init;
    }
  }

  /** An id no row holds gets no edges. */
  lemma {:induction false} EdgesAbsent(rows: seq<Row>, id: string)
    requires forall j | 0 <= j < |rows| :: rows[j].id != id
    ensures EdgesOf(rows, id) == []
  {
    if rows != [] {
      EdgesAbsent(rows[..|rows| - 1], id);
    }
  }
}
