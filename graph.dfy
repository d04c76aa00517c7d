/**
 * The values the store holds: nodes, edges, the connection the canvas reports,
 * and the change descriptors the canvas emits. The free-form `data` objects of
 * nodes and edges are maps from keys to JavaScript values.
 */
module Graph {
  import opened Wrappers

  /** A JavaScript value as far as the editor inspects one (numbers are integers here). */
  datatype JsValue = Undefined | Null | Bool(b: bool) | Num(n: int) | Str(s: string)

  /** JavaScript truthiness: `undefined`, `null`, `false`, `0` and `''` are falsy. */
  predicate Truthy(v: JsValue)
    ensures Truthy(v) <==> v !in [Undefined, Null, Bool(false), Num(0), Str("")]
  {
    match v
    case Undefined => false
    case Null => false
    case Bool(b) => b
    case Num(n) => n != 0
    case Str(s) => s != []
  }

  /** A plain object: the keys present and their values. */
  type Record = map<string, JsValue>

  /** `obj?.[key]` on an object that may be absent: `undefined` for an absent object or key. */
  function Get(obj: Option<Record>, key: string): (v: JsValue)
    ensures v != Undefined ==> obj.Some? && key in obj.value && v == obj.value[key]
    ensures obj.Some? && key in obj.value ==> v == obj.value[key]
  {
    match obj
    case None => Undefined
    case Some(m) => if key in m then m[key] else Undefined
  }

  /** A point on the canvas. */
  datatype XY = XY(x: int, y: int)

  /**
   * A diagram node. `attrs` holds the fields the canvas library keeps on a node
   * besides these (selection, measured size, dragging flag).
   */
  datatype Node = Node(id: string, nodeType: string, position: XY, data: Record, attrs: Record)

  /** A diagram edge; `data` is the optional styling object the edge inspector reads. */
  datatype Edge = Edge(
    id: string,
    source: string,
    target: string,
    sourceHandle: Option<string>,
    targetHandle: Option<string>,
    edgeType: Option<string>,
    data: Option<Record>,
    attrs: Record)

  /** What the canvas reports when a connection drag completes. */
  datatype Connection = Connection(
    source: Option<string>,
    target: Option<string>,
    sourceHandle: Option<string>,
    targetHandle: Option<string>)

  /** The object the store hands to the library's `addEdge`: a connection plus an id and a type. */
  datatype EdgeParams = EdgeParams(
    source: Option<string>,
    target: Option<string>,
    sourceHandle: Option<string>,
    targetHandle: Option<string>,
    id: string,
    edgeType: string)

  /** The change descriptors the canvas emits for nodes. */
  datatype NodeChange =
    | NodeDimensions(id: string, width: int, height: int)
    | NodePosition(id: string, position: Option<XY>, dragging: Option<bool>)
    | NodeSelect(id: string, selected: bool)
    | NodeRemove(id: string)
    | NodeAdd(node: Node)
    | NodeReset(node: Node)

  /** The change descriptors the canvas emits for edges. */
  datatype EdgeChange =
    | EdgeSelect(id: string, selected: bool)
    | EdgeRemove(id: string)
    | EdgeAdd(edge: Edge)
    | EdgeReset(edge: Edge)
}
