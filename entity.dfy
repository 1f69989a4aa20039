/** The persistent node entity (Node.java in the root package): a node
    with an id, coordinates, a type and the set of nodes it is joined
    to. Adding or removing a neighbour updates the sets of both nodes;
    equality, hashing and ordering look at the id alone. */
module Entity {
  import opened Base
  import opened Text

  /** Java's int: the value a 32-bit two's-complement register holds
      after an arithmetic result v. */
  function Wrap32(v: int): (r: int)
    ensures -0x8000_0000 <= r < 0x8000_0000
    ensures (r - v) % 0x1_0000_0000 == 0
  {
    (v + 0x8000_0000) % 0x1_0000_0000 - 0x8000_0000
  }

  /** String.hashCode: h = 31 * h + c over the chars, in int arithmetic. */
  function StringHash(s: string): (h: int)
    ensures -0x8000_0000 <= h < 0x8000_0000
  {
    if s == [] then 0 else Wrap32(31 * StringHash(s[..|s| - 1]) + s[|s| - 1] as int)
  }

  class Node {
    var id: string
    var x: int
    var y: int
    var kind: Option<NodeType>
    /** The nodes this node is joined to. */
    var edges: set<Node>

    /** Node(id, x, y, type): the plain setters store their arguments. */
    constructor (id: string, x: int, y: int, kind: Option<NodeType>)
      ensures this.id == id && this.x == x && this.y == y && this.kind == kind
      ensures edges == {}
    {
      this.id := id;
      this.x := x;
      this.y := y;
      this.kind := kind;
      edges := {};
    }

    /** addEdge: joins `node` to this node and this node to `node`. */
    method AddEdge(node: Node) returns (r: Node)
      modifies this`edges, node`edges
      ensures r == this
      ensures edges == old(edges) + {node}
      ensures node.edges == old(node.edges) + {this}
      ensures id == old(id) && node.id == old(node.id)
    {
      edges := edges + {node};
      node.edges := node.edges + {this};
      r := this;
    }

    /** removeEdge: parts `node` from this node and this node from `node`. */
    method RemoveEdge(node: Node)
      modifies this`edges, node`edges
      ensures edges == old(edges) - {node}
      ensures node.edges == old(node.edges) - {this}
      ensures id == old(id) && node.id == old(node.id)
    {
      edges := edges - {node};
      node.edges := node.edges - {this};
    }

    /** setEdges: clears this node's own set only, then adds each given
        node. Afterwards this node's set is exactly `nodes`, each of them
        lists this node, and a former neighbour left out still lists it. */
    method SetEdges(nodes: set<Node>) returns (r: Node)
      modifies this`edges, nodes`edges
      ensures r == this && edges == nodes
      ensures forall n | n in nodes && n != this :: n.edges == old(n.edges) + {this}
      ensures forall n | n in nodes :: this in n.edges
      ensures forall n | n in old(edges) && n !in nodes && n != this :: n.edges == old(n.edges)
    {
      edges := {};
      var rest := nodes;
      while rest != {}
        invariant rest <= nodes
        invariant edges == nodes - rest
        invariant forall n | n in nodes - rest :: this in n.edges
        invariant forall n | n in nodes - rest && n != this :: n.edges == old(n.edges) + {this}
        invariant forall n | n in rest && n != this :: n.edges == old(n.edges)
        decreases rest
      {
        var n :| n in rest;
        var self := AddEdge(n);
        rest := rest - {n};
      }
      r := this;
    }

    /** The pre-remove hook: parts this node from every neighbour. */
    method RemoveEdges()
      modifies this`edges, edges`edges
      ensures edges == {}
      ensures forall n | n in old(edges) && n != this :: n.edges == old(n.edges) - {this}
      ensures forall n | n in old(edges) :: this !in n.edges
    {
      var pending := edges;
      while pending != {}
        invariant pending <= old(edges)
        invariant edges == pending
        invariant forall n | n in old(edges) - pending && n != this :: n.edges == old(n.edges) - {this}
        invariant forall n | n in pending && n != this :: n.edges == old(n.edges)
        decreases pending
      {
        var n :| n in pending;
        RemoveEdge(n);
        pending := pending - {n};
      }
    }

    /** equals: the same object, or the same id. */
    function Equals(o: Node): (r: bool)
      reads this, o
      ensures r <==> id == o.id
    {
      this == o || id == o.id
    }

    /** hashCode: Objects.hash(id), that is 31 + id.hashCode(). */
    function HashCode(): (h: int)
      reads this
      ensures -0x8000_0000 <= h < 0x8000_0000
    {
      Wrap32(31 + StringHash(id))
    }

    /** compareTo: String.compareTo on the ids; zero exactly for equal
        nodes, negative exactly when this id sorts first. */
    function CompareTo(o: Node): (r: int)
      reads this, o
      ensures r == 0 <==> Equals(o)
      ensures r < 0 <==> Less(id, o.id)
    {
      CompareZeroIffEqual(id, o.id);
      Compare(id, o.id)
    }
  }

  /** Equal nodes hash alike. */
  lemma EqualsHashCode(a: Node, b: Node)
    requires a.Equals(b)
    ensures a.HashCode() == b.HashCode()
  {
  }

  /** compareTo is antisymmetric: swapping the nodes negates it. */
  lemma CompareToAntisymmetric(a: Node, b: Node)
    ensures a.CompareTo(b) == -b.CompareTo(a)
  {
    CompareAntisymmetric(a.id, b.id);
  }

  /** compareTo is transitive. */
  lemma CompareToTransitive(a: Node, b: Node, c: Node)
    requires a.CompareTo(b) < 0 && b.CompareTo(c) < 0
    ensures a.CompareTo(c) < 0
  {
    CompareTransitive(a.id, b.id, c.id);
  }
}
