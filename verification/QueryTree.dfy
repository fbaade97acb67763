/** Parsed queries (src/query/parser.rs:10-31). */
module QueryTree {

  datatype QueryNode =
    | Empty
    | Literal(text: string)
    | BoostedLiteral(text: string, boost: nat)
    | Near(terms: seq<string>, distance: nat)
    | Phrase(text: string)
    | Regex(pattern: string)
    | And(nodes: seq<QueryNode>)
    | Or(nodes: seq<QueryNode>)
    | Not(inner: QueryNode)

  function Nodes(node: QueryNode): seq<QueryNode> {
    match node
    case And(nodes) => nodes
    case Or(nodes) => nodes
    case _ => []
  }
}
