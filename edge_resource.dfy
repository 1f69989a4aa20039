/** The edge endpoints of the edge package (edge/EdgeResource.java):
    creating an edge checks, in this order, that its ends differ, that
    both nodes exist and that neither orientation is stored yet;
    deleting an edge removes whichever orientation is stored. The node
    and edge tables are the state the two services read and write. */
module EdgeResource {
  import opened Base

  const SameEndsMessage: string := "source and target must be different"
  const NoSourceMessage: string := "Source node not found"
  const NoTargetMessage: string := "Target node not found"
  const DuplicateMessage: string := "Duplicated edge"

  /** A stored edge row: (source, target). */
  type Pair = (string, string)

  /** The request body of a create. */
  datatype EdgeDto = EdgeDto(source: string, target: string)

  /** What a create does to the edge table: the error it raises, or the
      table with the new pair. */
  function Created(nodes: set<string>, edges: set<Pair>, e: EdgeDto): (r: Result<set<Pair>>)
    ensures r.Ok? <==> (e.source != e.target && e.source in nodes && e.target in nodes
                        && (e.source, e.target) !in edges && (e.target, e.source) !in edges)
    ensures r.Ok? ==> r.value == edges + {(e.source, e.target)} && (e.source, e.target) !in edges
    ensures r.Err? ==> r.error.BadRequest?
  {
    if e.source == e.target then Err(BadRequest(SameEndsMessage))
    else if e.source !in nodes then Err(BadRequest(NoSourceMessage))
    else if e.target !in nodes then Err(BadRequest(NoTargetMessage))
    else if (e.source, e.target) in edges || (e.target, e.source) in edges then Err(BadRequest(DuplicateMessage))
    else Ok(edges + {(e.source, e.target)})
  }

  /** What a delete does to the edge table: the table without the pair
      in the given orientation if stored, else without the reversed
      pair if stored, else NotFound. */
  function Deleted(edges: set<Pair>, source: string, target: string): (r: Result<set<Pair>>)
    ensures r.Err? <==> (source, target) !in edges && (target, source) !in edges
    ensures r.Err? ==> r.error == NotFound
    ensures r.Ok? ==> r.value < edges && |edges - r.value| == 1
    ensures r.Ok? ==> r.value == edges - {(source, target)} || r.value == edges - {(target, source)}
  {
    if (source, target) in edges then Ok(edges - {(source, target)})
    else if (target, source) in edges then Ok(edges - {(target, source)})
    else Err(NotFound)
  }

  /** The table holds no self-loop, at most one orientation of each
      pair, and only pairs of existing nodes. */
  predicate Sound(nodes: set<string>, edges: set<Pair>)
  {
    forall p | p in edges :: p.0 != p.1 && p.0 in nodes && p.1 in nodes && (p.1, p.0) !in edges
  }

  class Store {
    /** The ids of the stored nodes. */
    var nodes: set<string>
    /** The stored edge rows. */
    var edges: set<Pair>

    constructor (nodes: set<string>, edges: set<Pair>)
      ensures this.nodes == nodes && this.edges == edges
    {
      this.nodes := nodes;
      this.edges := edges;
    }

    /** create: on a refusal nothing changes; otherwise exactly the new
        pair is added. */
    method Create(e: EdgeDto) returns (r: Result<()>)
      modifies this
      ensures var c := Created(old(nodes), old(edges), e);
        && (r.Err? <==> c.Err?)
        && (r.Err? ==> r.error == c.error && edges == old(edges))
        && (r.Ok? ==> edges == c.value)
      ensures nodes == old(nodes)
      ensures old(Sound(nodes, edges)) ==> Sound(nodes, edges)
    {
      if e.source == e.target {
        return Err(BadRequest(SameEndsMessage));
      }
      if e.source !in nodes {
        return Err(BadRequest(NoSourceMessage));
      }
      if e.target !in nodes {
        return Err(BadRequest(NoTargetMessage));
      }
      if (e.source, e.target) in edges || (e.target, e.source) in edges {
        return Err(BadRequest(DuplicateMessage));
      }
      edges := edges + {(e.source, e.target)};
      assert Sound(old(nodes), old(edges)) ==> Sound(nodes, edges) by {
        if Sound(old(nodes), old(edges)) {
          CreateSound(old(nodes), old(edges), e);
        }
      }
      r := Ok(());
    }

    /** delete: removes the stored orientation of the pair, or raises
        NotFound and changes nothing. */
    method Delete(source: string, target: string) returns (r: Result<()>)
      modifies this
      ensures var d := Deleted(old(edges), source, target);
        && (r.Err? <==> d.Err?)
        && (r.Err? ==> r.error == NotFound && edges == old(edges))
        && (r.Ok? ==> edges == d.value)
      ensures nodes == old(nodes)
      ensures old(Sound(nodes, edges)) ==> Sound(nodes, edges)
    {
      if (source, target) in edges {
        edges := edges - {(source, target)};
      } else if (target, source) in edges {
        edges := edges - {(target, source)};
      } else {
        return Err(NotFound);
      }
      r := Ok(());
    }
  }

  /** A successful create keeps the table sound. */
  lemma CreateSound(nodes: set<string>, edges: set<Pair>, e: EdgeDto)
    requires Sound(nodes, edges) && Created(nodes, edges, e).Ok?
    ensures Sound(nodes, Created(nodes, edges, e).value)
  {
    var after := Created(nodes, edges, e).value;
    forall p | p in after
      ensures p.0 != p.1 && p.0 in nodes && p.1 in nodes && (p.1, p.0) !in after
    {
      if p != (e.source, e.target) {
        assert p in edges;
        assert (p.1, p.0) != (e.source, e.target);
      }
    }
  }

  /** Deleting, in either orientation, right after a create restores
      the table. */
  lemma DeleteUndoesCreate(nodes: set<string>, edges: set<Pair>, e: EdgeDto)
    requires Created(nodes, edges, e).Ok?
    ensures Deleted(Created(nodes, edges, e).value, e.source, e.target) == Ok(edges)
    ensures Deleted(Created(nodes, edges, e).value, e.target, e.source) == Ok(edges)
  {
    var after := edges + {(e.source, e.target)};
    assert after - {(e.source, e.target)} == edges;
  }

  /** In a sound table, a delete leaves neither orientation of the pair. */
  lemma DeleteClears(nodes: set<string>, edges: set<Pair>, source: string, target: string)
    requires Sound(nodes, edges) && Deleted(edges, source, target).Ok?
    ensures var after := Deleted(edges, source, target).value;
      (source, target) !in after && (target, source) !in after
  {
  }

  /** A create right after a delete of the same pair succeeds when both
      nodes still exist, and gives back the table with the pair in the
      create's orientation. */
  lemma CreateAfterDelete(nodes: set<string>, edges: set<Pair>, e: EdgeDto)
    requires Sound(nodes, edges) && Deleted(edges, e.source, e.target).Ok?
    ensures var after := Deleted(edges, e.source, e.target).value;
      && Created(nodes, after, e).Ok?
      && Created(nodes, after, e).value == (after + {(e.source, e.target)})
  {
    var after := Deleted(edges, e.source, e.target).value;
    if (e.source, e.target) in edges {
      assert e.source in nodes && e.target in nodes && e.source != e.target;
    } else {
      assert (e.target, e.source) in edges;
    }
  }
}
