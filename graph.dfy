/** The graph container (Graph.java): a list of nodes and a list of
    edges, each replaced by a copy of the list it is given. */
module Graphs {
  import opened Records

  class Graph {
    var nodes: seq<NodeDto>
    var edges: seq<Edge>

    /** A new graph holds no nodes and no edges. */
    constructor ()
      ensures nodes == [] && edges == []
      ensures IsEmpty()
    {
      nodes := [];
      edges := [];
    }

    /** setNodes: the nodes become a copy of `l`, in order; the edges
        stay. */
    method SetNodes(l: seq<NodeDto>) returns (r: Graph)
      modifies this
      ensures r == this && nodes == l && edges == old(edges)
      ensures IsEmpty() <==> l == [] && old(edges) == []
    {
      nodes := l;
      r := this;
    }

    /** setEdges: the edges become a copy of `l`, in order; the nodes
        stay. */
    method SetEdges(l: seq<Edge>) returns (r: Graph)
      modifies this
      ensures r == this && edges == l && nodes == old(nodes)
      ensures IsEmpty() <==> l == [] && old(nodes) == []
    {
      edges := l;
      r := this;
    }

    /** equals: the same object, or equal node lists and equal edge
        lists, element by element in order. */
    function Equals(o: Graph): (r: bool)
      reads this, o
      ensures r <==> nodes == o.nodes && edges == o.edges
      ensures r ==> |nodes| == |o.nodes| && forall i | 0 <= i < |nodes| :: nodes[i] == o.nodes[i]
    {
      this == o || (nodes == o.nodes && edges == o.edges)
    }

    /** isEmpty: neither a node nor an edge. */
    predicate IsEmpty()
      reads this
    {
      |nodes| == 0 && |edges| == 0
    }
  }

  /** Equal graphs are both empty or both not. */
  lemma EqualsEmpty(g: Graph, h: Graph)
    requires g.Equals(h)
    ensures g.IsEmpty() <==> h.IsEmpty()
  {
  }
}
