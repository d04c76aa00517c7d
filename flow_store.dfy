/**
 * The graph store: the ordered node and edge collections and the actions that
 * replace them. The canvas library's `applyNodeChanges`, `applyEdgeChanges` and
 * `addEdge` are not part of this model; the store receives them as a
 * `ReactFlow` value and promises only that it installs their results.
 */
module FlowStore {
  import opened Wrappers
  import opened Graph
  import Strings

  /** The three library functions the store delegates to. */
  datatype ReactFlow = ReactFlow(
    applyNodeChanges: (seq<NodeChange>, seq<Node>) -> seq<Node>,
    applyEdgeChanges: (seq<EdgeChange>, seq<Edge>) -> seq<Edge>,
    addEdge: (EdgeParams, seq<Edge>) -> seq<Edge>)

  const LabelKey: string := "label"

  /** `{ ...node, data: { ...node.data, label } }`. */
  function Relabel(node: Node, text: string): (r: Node)
    ensures r.id == node.id && r.nodeType == node.nodeType
    ensures r.position == node.position && r.attrs == node.attrs
    ensures r.data.Keys == node.data.Keys + {LabelKey}
    ensures r.data[LabelKey] == Str(text)
    ensures forall k :: k in node.data && k != LabelKey ==> r.data[k] == node.data[k]
  {
    node.(data := node.data[LabelKey := Str(text)])
  }

  /** The node sequence after `updateNodeLabel(id, label)`: every node with that id relabelled, the rest kept, in order. */
  function RelabelAll(nodes: seq<Node>, id: string, text: string): (r: seq<Node>)
    ensures |r| == |nodes|
    ensures forall i :: 0 <= i < |nodes| && nodes[i].id == id ==> r[i] == Relabel(nodes[i], text)
    ensures forall i :: 0 <= i < |nodes| && nodes[i].id != id ==> r[i] == nodes[i]
  {
    if nodes == [] then []
    else
      var head := if nodes[0].id == id then Relabel(nodes[0], text) else nodes[0];
      [head] + RelabelAll(nodes[1..], id, text)
  }

  /** Relabelling with an id no node has leaves the sequence as it was. */
  lemma {:induction false} RelabelMissingId(nodes: seq<Node>, id: string, text: string)
    requires forall i :: 0 <= i < |nodes| ==> nodes[i].id != id
    ensures RelabelAll(nodes, id, text) == nodes
  {
    var r := RelabelAll(nodes, id, text);
    assert forall i :: 0 <= i < |nodes| ==> r[i] == nodes[i];
  }

  /** Relabelling twice with the same arguments is relabelling once. */
  lemma {:induction false} RelabelIdempotent(nodes: seq<Node>, id: string, text: string)
    ensures RelabelAll(RelabelAll(nodes, id, text), id, text) == RelabelAll(nodes, id, text)
  {
    var once := RelabelAll(nodes, id, text);
    var twice := RelabelAll(once, id, text);
    forall i | 0 <= i < |nodes|
      ensures twice[i] == once[i]
    {
      if nodes[i].id == id {
        assert once[i].data[LabelKey := Str(text)] == once[i].data;
      }
    }
  }

  /** Relabelling keeps every node's id, type, position and library fields, and the ids in order. */
  lemma RelabelKeepsShape(nodes: seq<Node>, id: string, text: string)
    ensures var r := RelabelAll(nodes, id, text);
      forall i :: 0 <= i < |nodes| ==>
        r[i].id == nodes[i].id && r[i].nodeType == nodes[i].nodeType &&
        r[i].position == nodes[i].position && r[i].attrs == nodes[i].attrs
  {
  }

  /** The edge `onConnect` builds: the connection's fields, an id `edge-<random>`, and type `custom`. */
  function ConnectionEdge(connection: Connection, random: string): (e: EdgeParams)
    ensures e.source == connection.source && e.target == connection.target
    ensures e.sourceHandle == connection.sourceHandle && e.targetHandle == connection.targetHandle
    ensures e.edgeType == "custom"
    ensures Strings.StartsWith(e.id, "edge-") && e.id[5..] == random
  {
    EdgeParams(connection.source, connection.target, connection.sourceHandle,
               connection.targetHandle, "edge-" + random, "custom")
  }

  /** The store: two ordered collections, empty at start, replaced as a whole by each action. */
  class Store {
    const lib: ReactFlow
    var nodes: seq<Node>
    var edges: seq<Edge>

    constructor (lib: ReactFlow)
      ensures this.lib == lib
      ensures nodes == [] && edges == []
    {
      this.lib := lib;
      nodes := [];
      edges := [];
    }

    /** Installs the library's result of applying the node changes; edges are untouched. */
    method OnNodesChange(changes: seq<NodeChange>)
      modifies this
      ensures nodes == lib.applyNodeChanges(changes, old(nodes))
      ensures edges == old(edges)
    {
      nodes := lib.applyNodeChanges(changes, nodes);
    }

    /** Installs the library's result of applying the edge changes; nodes are untouched. */
    method OnEdgesChange(changes: seq<EdgeChange>)
      modifies this
      ensures edges == lib.applyEdgeChanges(changes, old(edges))
      ensures nodes == old(nodes)
    {
      edges := lib.applyEdgeChanges(changes, edges);
    }

    /**
     * Hands the edge built from the connection to the library's `addEdge` and
     * installs the result. `random` is the text of the random number in the id.
     */
    method OnConnect(connection: Connection, random: string)
      modifies this
      ensures edges == lib.addEdge(ConnectionEdge(connection, random), old(edges))
      ensures nodes == old(nodes)
    {
      edges := lib.addEdge(ConnectionEdge(connection, random), edges);
    }

    /** Appends the node; there is no check that its id is new. */
    method AddNode(node: Node)
      modifies this
      ensures nodes == old(nodes) + [node]
      ensures edges == old(edges)
    {
      nodes := nodes + [node];
    }

    /** Relabels every node with the given id. */
    method UpdateNodeLabel(nodeId: string, text: string)
      modifies this
      ensures nodes == RelabelAll(old(nodes), nodeId, text)
      ensures edges == old(edges)
    {
      nodes := RelabelAll(nodes, nodeId, text);
    }
  }
}
