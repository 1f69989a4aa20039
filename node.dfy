/** The node value of the node package (node/Node.java): setters that
    refuse a null or blank id, a negative coordinate or a null type and
    then change nothing, and an equality by id. */
module NodeValue {
  import opened Base
  import opened Text

  const IdMessage: string := "id cannot be null or blank"
  const XMessage: string := "x cannot be negative"
  const YMessage: string := "y cannot be negative"
  const TypeMessage: string := "type cannot be null"

  /** The error the four-argument constructor raises for these
      arguments: that of the first setter to refuse, in the order id,
      x, y, type. */
  function FirstRefusal(id: Option<string>, x: int, y: int, kind: Option<NodeType>): (r: Option<Error>)
    ensures r.None? <==> id.Some? && !IsBlank(id.value) && x >= 0 && y >= 0 && kind.Some?
    ensures r.Some? ==> r.value.IllegalArgument?
  {
    if id.None? || IsBlank(id.value) then Some(IllegalArgument(IdMessage))
    else if x < 0 then Some(IllegalArgument(XMessage))
    else if y < 0 then Some(IllegalArgument(YMessage))
    else if kind.None? then Some(IllegalArgument(TypeMessage))
    else None
  }

  class Node {
    var id: Option<string>
    var x: int
    var y: int
    var kind: Option<NodeType>

    /** What every setter guarantees of its own field. */
    predicate Valid()
      reads this
    {
      id.Some? && !IsBlank(id.value) && x >= 0 && y >= 0 && kind.Some?
    }

    /** Node(): no id, no type, both coordinates 0. */
    constructor Empty()
      ensures id.None? && x == 0 && y == 0 && kind.None?
    {
      id := None;
      x := 0;
      y := 0;
      kind := None;
    }

    /** setId: refuses a null or blank id and changes nothing then;
        otherwise sets the id only. */
    method SetId(id: Option<string>) returns (r: Result<Node>)
      modifies this
      ensures r.Err? <==> id.None? || IsBlank(id.value)
      ensures r.Err? ==> r.error == IllegalArgument(IdMessage) && this.id == old(this.id)
      ensures r.Ok? ==> r.value == this && this.id == id
      ensures x == old(x) && y == old(y) && kind == old(kind)
    {
      if id.None? || IsBlank(id.value) {
        return Err(IllegalArgument(IdMessage));
      }
      this.id := id;
      r := Ok(this);
    }

    /** setX: refuses a negative value and changes nothing then;
        otherwise sets x only. */
    method SetX(x: int) returns (r: Result<Node>)
      modifies this
      ensures r.Err? <==> x < 0
      ensures r.Err? ==> r.error == IllegalArgument(XMessage) && this.x == old(this.x)
      ensures r.Ok? ==> r.value == this && this.x == x
      ensures id == old(id) && y == old(y) && kind == old(kind)
    {
      if x < 0 {
        return Err(IllegalArgument(XMessage));
      }
      this.x := x;
      r := Ok(this);
    }

    /** setY: refuses a negative value and changes nothing then;
        otherwise sets y only. */
    method SetY(y: int) returns (r: Result<Node>)
      modifies this
      ensures r.Err? <==> y < 0
      ensures r.Err? ==> r.error == IllegalArgument(YMessage) && this.y == old(this.y)
      ensures r.Ok? ==> r.value == this && this.y == y
      ensures id == old(id) && x == old(x) && kind == old(kind)
    {
      if y < 0 {
        return Err(IllegalArgument(YMessage));
      }
      this.y := y;
      r := Ok(this);
    }

    /** setType: refuses null and changes nothing then; otherwise sets
        the type only. */
    method SetType(kind: Option<NodeType>) returns (r: Result<Node>)
      modifies this
      ensures r.Err? <==> kind.None?
      ensures r.Err? ==> r.error == IllegalArgument(TypeMessage) && this.kind == old(this.kind)
      ensures r.Ok? ==> r.value == this && this.kind == kind
      ensures id == old(id) && x == old(x) && y == old(y)
    {
      if kind.None? {
        return Err(IllegalArgument(TypeMessage));
      }
      this.kind := kind;
      r := Ok(this);
    }

    /** equals: the same object, or the same (possibly null) id. */
    function Equals(o: Node): (r: bool)
      reads this, o
      ensures r <==> id == o.id
    {
      this == o || id == o.id
    }
  }

  /** Node(id, x, y, type): runs the four setters in turn, so it either
      raises the first refusal or yields a node that holds exactly its
      arguments and satisfies every setter's guard. */
  method NewNode(id: Option<string>, x: int, y: int, kind: Option<NodeType>) returns (r: Result<Node>)
    ensures r.Err? <==> FirstRefusal(id, x, y, kind).Some?
    ensures r.Err? ==> r.error == FirstRefusal(id, x, y, kind).value
    ensures r.Ok? ==> fresh(r.value) && r.value.Valid()
    ensures r.Ok? ==> r.value.id == id && r.value.x == x && r.value.y == y && r.value.kind == kind
  {
    var n := new Node.Empty();
    var step := n.SetId(id);
    if step.Err? {
      return Err(step.error);
    }
    step := n.SetX(x);
    if step.Err? {
      return Err(step.error);
    }
    step := n.SetY(y);
    if step.Err? {
      return Err(step.error);
    }
    step := n.SetType(kind);
    if step.Err? {
      return Err(step.error);
    }
    r := Ok(n);
  }

  /** equals is an equivalence: reflexive, symmetric and transitive. */
  lemma EqualsEquivalence(a: Node, b: Node, c: Node)
    ensures a.Equals(a)
    ensures a.Equals(b) ==> b.Equals(a)
    ensures a.Equals(b) && b.Equals(c) ==> a.Equals(c)
  {
  }
}
