/**
 * The canvas page: the node-type table, the session counter that mints node
 * ids, and the drop handler that turns a palette drag into one new node.
 */
module App {
  import opened Wrappers
  import opened Graph
  import Strings
  import CustomNodes
  import FlowStore

  /** The name under which each kind is registered with the canvas. */
  function KindName(kind: CustomNodes.NodeKind): (name: string)
    ensures name in ["start", "process", "decision", "end"]
  {
    match kind
    case Start => "start"
    case Process => "process"
    case Decision => "decision"
    case End => "end"
  }

  /** The `nodeTypes` table read backwards: the kind a node type token selects, if any. */
  function KindOf(token: string): (r: Option<CustomNodes.NodeKind>)
    ensures r.Some? ==> KindName(r.value) == token
    ensures r.None? ==> token !in {"start", "process", "decision", "end"}
  {
    if token == "start" then Some(CustomNodes.Start)
    else if token == "process" then Some(CustomNodes.Process)
    else if token == "decision" then Some(CustomNodes.Decision)
    else if token == "end" then Some(CustomNodes.End)
    else None
  }

  /** Every registered kind is found again under its name. */
  lemma KindNameRoundTrip(kind: CustomNodes.NodeKind)
    ensures KindOf(KindName(kind)) == Some(kind)
  {
  }

  /** The id `getNodeId` returns while the counter holds `k`. */
  function NodeIdOf(k: nat): (id: string)
    ensures Strings.StartsWith(id, "node_") && id[5..] == Strings.Decimal(k)
  {
    "node_" + Strings.Decimal(k)
  }

  /** Two counter values give the same id only if they are equal. */
  lemma NodeIdInjective(a: nat, b: nat)
    ensures NodeIdOf(a) == NodeIdOf(b) <==> a == b
  {
    if NodeIdOf(a) == NodeIdOf(b) {
      assert NodeIdOf(a)[5..] == NodeIdOf(b)[5..];
      Strings.DecimalInjective(a, b);
    }
  }

  /**
   * The module-level counter: starts at 1 and is read and advanced only by
   * `GetNodeId`. `issued` records the ids minted so far in this session.
   */
  class Session {
    var nodeId: nat
    ghost var issued: seq<string>

    ghost predicate Valid()
      reads this
    {
      nodeId >= 1 && |issued| == nodeId - 1 &&
      forall i :: 0 <= i < |issued| ==> issued[i] == NodeIdOf(i + 1)
    }

    constructor ()
      ensures Valid() && nodeId == 1 && issued == []
    {
      nodeId := 1;
      issued := [];
    }

    /** Returns `node_<k>` for the current counter `k` and advances it; the id is new in the session. */
    method GetNodeId() returns (id: string)
      requires Valid()
      modifies this
      ensures Valid()
      ensures id == NodeIdOf(old(nodeId)) && nodeId == old(nodeId) + 1
      ensures issued == old(issued) + [id]
      ensures id !in old(issued)
    {
      id := NodeIdOf(nodeId);
      forall i | 0 <= i < |issued|
        ensures issued[i] != id
      {
        NodeIdInjective(i + 1, nodeId);
      }
      issued := issued + [id];
      nodeId := nodeId + 1;
    }
  }

  /** The ids minted in one session are pairwise distinct, and the i-th is `node_<i+1>`. */
  lemma IssuedDistinct(s: Session)
    requires s.Valid()
    ensures forall i, j :: 0 <= i < j < |s.issued| ==> s.issued[i] != s.issued[j]
  {
    forall i, j | 0 <= i < j < |s.issued|
      ensures s.issued[i] != s.issued[j]
    {
      NodeIdInjective(i + 1, j + 1);
    }
  }

  /** The canvas's screen-space origin, as its bounding box reports it. */
  datatype Bounds = Bounds(left: int, top: int)

  /** A drop: the type token the palette put in the drag payload, and the pointer's screen coordinates. */
  datatype DropEvent = DropEvent(payload: string, clientX: int, clientY: int)

  /** The drop point in canvas coordinates. */
  function DropPosition(ev: DropEvent, bounds: Bounds): (p: XY)
    ensures p.x + bounds.left == ev.clientX && p.y + bounds.top == ev.clientY
  {
    XY(ev.clientX - bounds.left, ev.clientY - bounds.top)
  }

  /** The node a drop creates: the token verbatim as its type, the capitalised token as its label. */
  function DroppedNode(id: string, token: string, position: XY): (n: Node)
    ensures n.id == id && n.nodeType == token && n.position == position
    ensures n.data.Keys == {FlowStore.LabelKey} && n.data[FlowStore.LabelKey] == Str(Strings.Capitalize(token))
    ensures n.attrs == map[]
  {
    Node(id, token, position, map[FlowStore.LabelKey := Str(Strings.Capitalize(token))], map[])
  }

  /**
   * The drop handler. An empty payload or a missing canvas aborts before the
   * counter is touched; otherwise exactly one node is added. The token is not
   * checked against the registered kinds.
   */
  method OnDrop(session: Session, store: FlowStore.Store, ev: DropEvent, bounds: Option<Bounds>)
    requires session.Valid()
    modifies session, store
    ensures session.Valid()
    ensures store.edges == old(store.edges)
    ensures ev.payload == [] || bounds.None? ==>
      store.nodes == old(store.nodes) && session.nodeId == old(session.nodeId) &&
      session.issued == old(session.issued)
    ensures ev.payload != [] && bounds.Some? ==>
      session.nodeId == old(session.nodeId) + 1 &&
      store.nodes == old(store.nodes) +
        [DroppedNode(NodeIdOf(old(session.nodeId)), ev.payload, DropPosition(ev, bounds.value))]
  {
    var token := ev.payload;
    if token == [] {
      return;
    }
    if bounds.None? {
      return;
    }
    var position := DropPosition(ev, bounds.value);
    var id := session.GetNodeId();
    store.AddNode(DroppedNode(id, token, position));
  }

  /**
   * A session that starts empty and receives a drop of `process` at (100, 50) on
   * a canvas whose origin is the screen origin holds exactly node_1, labelled Process.
   */
  method DropScenario(lib: FlowStore.ReactFlow) returns (nodes: seq<Node>, nextId: nat)
    ensures nextId == 2
    ensures nodes == [Node("node_1", "process", XY(100, 50), map["label" := Str("Process")], map[])]
  {
    var session := new Session();
    var store := new FlowStore.Store(lib);
    var ev, bounds := DropEvent("process", 100, 50), Bounds(0, 0);
    OnDrop(session, store, ev, Some(bounds));
    assert session.nodeId == 2;
    assert store.nodes == [DroppedNode(NodeIdOf(1), ev.payload, DropPosition(ev, bounds))];
    ScenarioNode();
    nodes, nextId := store.nodes, session.nodeId;
  }

  lemma ScenarioNode()
    ensures DroppedNode(NodeIdOf(1), "process", DropPosition(DropEvent("process", 100, 50), Bounds(0, 0)))
         == Node("node_1", "process", XY(100, 50), map["label" := Str("Process")], map[])
  {
    assert Strings.Decimal(1) == "1";
    assert NodeIdOf(1) == "node_1";
    assert Strings.Capitalize("process") == "Process";
  }
}
