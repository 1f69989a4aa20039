/** The transfer records of the root package: an edge as an ordered
    (source, target) pair (Edge.java) and a node with its outgoing edges
    (NodeDTO.java). Records compare component by component. */
module Records {
  import opened Base

  datatype Edge = Edge(source: string, target: string)

  datatype NodeDto = NodeDto(id: string, x: int, y: int, kind: NodeType, edges: seq<Edge>)
}
