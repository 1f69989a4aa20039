/** Types shared by every part of the model: optional and failing results,
    the three node types and the errors the service raises. */
module Base {

  datatype Option<+T> = None | Some(value: T)

  /** The exceptions the modelled code throws, by kind. */
  datatype Error =
    | IllegalArgument(message: string)
    | BadRequest(message: string)
    | NotFound

  datatype Result<+T> = Ok(value: T) | Err(error: Error)

  /** A node's type (NodeType.java). */
  datatype NodeType = Lexeme | Division | Opposition

  /** The enum constant names, as NodeType.valueOf expects them. */
  function TypeName(t: NodeType): string
  {
    match t
    case Lexeme => "LEXEME"
    case Division => "DIVISION"
    case Opposition => "OPPOSITION"
  }

  /** NodeType.valueOf: the constant with exactly that name, or an
      IllegalArgumentException for any other string. */
  function ParseType(s: string): Result<NodeType>
  {
    if s == "LEXEME" then Ok(Lexeme)
    else if s == "DIVISION" then Ok(Division)
    else if s == "OPPOSITION" then Ok(Opposition)
    else Err(IllegalArgument("No enum constant com.probendi.itgraph.NodeType." + s))
  }

  /** valueOf accepts exactly the three names, and gives the constant of
      that name. */
  lemma ParseTypeAccepts(s: string)
    ensures ParseType(s).Ok? <==> s in {"LEXEME", "DIVISION", "OPPOSITION"}
    ensures ParseType(s).Ok? ==> TypeName(ParseType(s).value) == s
    ensures ParseType(s).Err? ==> ParseType(s).error.IllegalArgument?
  {
  }

  /** Parsing a constant's name gives back that constant. */
  lemma ParseTypeName(t: NodeType)
    ensures ParseType(TypeName(t)) == Ok(t)
  {
    match t
    case Lexeme =>
    case Division =>
      assert TypeName(t) != "LEXEME";
    case Opposition =>
      assert TypeName(t) != "LEXEME" && TypeName(t) != "DIVISION";
  }
}
