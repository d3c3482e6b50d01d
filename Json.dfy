/**
  A JSON tree and the three Jackson JsonNode operations the SDK relies on:
  path(field), path(index) and asText(default).  `path` never fails: a step
  that does not exist yields the MissingNode, and every further step from the
  MissingNode yields it again.
 */
module Json {

  /** A JSON value.  A number keeps the text Jackson would print for it. */
  datatype Json =
    | JNull
    | JBool(b: bool)
    | JNum(repr: string)
    | JStr(str: string)
    | JArr(items: seq<Json>)
    | JObj(fields: map<string, Json>)

  /** A JsonNode: either a node of the tree or Jackson's MissingNode. */
  datatype Node = Missing | Present(json: Json)

  /** node.path(field): the field's value when the node is an object that has it. */
  function PathKey(n: Node, key: string): (r: Node)
    ensures r.Present? <==> n.Present? && n.json.JObj? && key in n.json.fields
    ensures r.Present? ==> r.json == n.json.fields[key]
  {
    match n
    case Present(JObj(fields)) => if key in fields then Present(fields[key]) else Missing
    case _ => Missing
  }

  /** node.path(index): the element when the node is an array and the index is in range. */
  function PathIndex(n: Node, i: int): (r: Node)
    ensures r.Present? <==> n.Present? && n.json.JArr? && 0 <= i < |n.json.items|
    ensures r.Present? ==> r.json == n.json.items[i]
  {
    match n
    case Present(JArr(items)) => if 0 <= i < |items| then Present(items[i]) else Missing
    case _ => Missing
  }

  /** node.asText(default): the default for the MissingNode and for JSON null,
      the string itself for a text node, and Jackson's textual form otherwise
      (containers have the empty text). */
  function AsText(n: Node, default: string): (r: string)
    ensures n.Missing? || n.json.JNull? ==> r == default
    ensures n.Present? && n.json.JStr? ==> r == n.json.str
  {
    match n
    case Missing => default
    case Present(j) =>
      match j
      case JNull => default
      case JBool(b) => if b then "true" else "false"
      case JNum(repr) => repr
      case JStr(s) => s
      case JArr(_) => ""
      case JObj(_) => ""
  }
}
