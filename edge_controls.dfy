/**
 * The edge inspector: it looks up one edge by id, shows its styling fields with
 * defaults filled in, and turns each control change into one updater command.
 * The updaters themselves are not declared by the store, so the commands are
 * the model's output.
 */
module EdgeControls {
  import opened Wrappers
  import opened Graph

  /** The curve styles the style selector offers, in order. */
  const EdgeStyles: seq<string> := ["bezier", "straight", "step", "smoothstep", "default"]

  /** The display name of each style. */
  function StyleLabel(style: string): (r: Option<string>)
    ensures r.Some? <==> style in EdgeStyles
    ensures r.Some? ==> r.value != []
  {
    if style == "bezier" then Some("Curved")
    else if style == "straight" then Some("Straight")
    else if style == "step" then Some("Step")
    else if style == "smoothstep" then Some("Smooth Step")
    else if style == "default" then Some("Default")
    else None
  }

  datatype ColorOption = ColorOption(name: string, value: string)

  /** The colors the color selector offers, in order. */
  const Colors: seq<ColorOption> := [
    ColorOption("Gray", "#64748b"),
    ColorOption("Blue", "#3b82f6"),
    ColorOption("Green", "#22c55e"),
    ColorOption("Red", "#ef4444"),
    ColorOption("Yellow", "#eab308")
  ]

  const DefaultStyle: string := "bezier"
  const DefaultColor: string := "#64748b"

  /** Five distinct styles, each with a display name, and exactly the styles that have one. */
  lemma StyleTable()
    ensures |EdgeStyles| == 5
    ensures forall i, j :: 0 <= i < j < |EdgeStyles| ==> EdgeStyles[i] != EdgeStyles[j]
    ensures forall s :: StyleLabel(s).Some? <==> s in EdgeStyles
  {
  }

  /** Five distinct color values; the default color is the first. */
  lemma ColorTable()
    ensures |Colors| == 5
    ensures forall i, j :: 0 <= i < j < |Colors| ==> Colors[i].value != Colors[j].value
    ensures Colors[0].value == DefaultColor
  {
  }

  /** `edges.find(e => e.id === edgeId)`: the first edge with that id, if there is one. */
  function FindEdge(edges: seq<Edge>, edgeId: string): (r: Option<Edge>)
    ensures r.None? <==> forall i :: 0 <= i < |edges| ==> edges[i].id != edgeId
    ensures r.Some? ==> exists k :: 0 <= k < |edges| && edges[k] == r.value && r.value.id == edgeId &&
                                    forall i :: 0 <= i < k ==> edges[i].id != edgeId
  {
    if edges == [] then None
    else if edges[0].id == edgeId then Some(edges[0])
    else
      var r := FindEdge(edges[1..], edgeId);
      if r.Some? then
        var k :| 0 <= k < |edges[1..]| && edges[1..][k] == r.value && r.value.id == edgeId &&
                 forall i :: 0 <= i < k ==> edges[1..][i].id != edgeId;
        assert edges[k + 1] == r.value;
        r
      else r
  }

  /** The values the inspector displays. */
  datatype Panel = Panel(style: JsValue, color: JsValue, text: JsValue, sourceArrow: JsValue, targetArrow: JsValue)

  /** `edge.data?.<key> || fallback`. */
  function Field(edge: Edge, key: string, fallback: JsValue): (v: JsValue)
    ensures Truthy(Get(edge.data, key)) ==> v == Get(edge.data, key)
    ensures !Truthy(Get(edge.data, key)) ==> v == fallback
  {
    var stored := Get(edge.data, key);
    if Truthy(stored) then stored else fallback
  }

  function Resolve(edge: Edge): (p: Panel)
    ensures Truthy(p.style) && Truthy(p.color)
    ensures p.style == Str(DefaultStyle) <==> !Truthy(Get(edge.data, "style")) || Get(edge.data, "style") == Str(DefaultStyle)
    ensures p.color == Str(DefaultColor) <==> !Truthy(Get(edge.data, "color")) || Get(edge.data, "color") == Str(DefaultColor)
    ensures edge.data.None? ==> p == Panel(Str("bezier"), Str("#64748b"), Str(""), Bool(false), Bool(false))
    ensures Truthy(Get(edge.data, "style")) ==> p.style == Get(edge.data, "style")
    ensures !Truthy(Get(edge.data, "style")) ==> p.style == Str(DefaultStyle)
    ensures Truthy(Get(edge.data, "color")) ==> p.color == Get(edge.data, "color")
    ensures !Truthy(Get(edge.data, "color")) ==> p.color == Str(DefaultColor)
    ensures Truthy(Get(edge.data, "label")) ==> p.text == Get(edge.data, "label")
    ensures !Truthy(Get(edge.data, "label")) ==> p.text == Str("")
    ensures Truthy(Get(edge.data, "sourceArrow")) ==> p.sourceArrow == Get(edge.data, "sourceArrow")
    ensures !Truthy(Get(edge.data, "sourceArrow")) ==> p.sourceArrow == Bool(false)
    ensures Truthy(Get(edge.data, "targetArrow")) ==> p.targetArrow == Get(edge.data, "targetArrow")
    ensures !Truthy(Get(edge.data, "targetArrow")) ==> p.targetArrow == Bool(false)
    ensures !Truthy(p.text) ==> p.text == Str("")
    ensures !Truthy(p.sourceArrow) ==> p.sourceArrow == Bool(false)
    ensures !Truthy(p.targetArrow) ==> p.targetArrow == Bool(false)
  {
    Panel(Field(edge, "style", Str(DefaultStyle)),
          Field(edge, "color", Str(DefaultColor)),
          Field(edge, "label", Str("")),
          Field(edge, "sourceArrow", Bool(false)),
          Field(edge, "targetArrow", Bool(false)))
  }

  /** The inspector renders nothing for an id no edge has, and the resolved panel otherwise. */
  function Render(edges: seq<Edge>, edgeId: string): (r: Option<Panel>)
    ensures r.None? <==> forall i :: 0 <= i < |edges| ==> edges[i].id != edgeId
    ensures r.Some? ==> FindEdge(edges, edgeId).Some? && r.value == Resolve(FindEdge(edges, edgeId).value)
  {
    match FindEdge(edges, edgeId)
    case None => None
    case Some(e) => Some(Resolve(e))
  }

  /** An edge with an absent or falsy arrow flag shows both arrows unchecked, the target arrow included. */
  lemma ArrowsDefaultOff(edge: Edge)
    requires !Truthy(Get(edge.data, "sourceArrow")) && !Truthy(Get(edge.data, "targetArrow"))
    ensures Resolve(edge).sourceArrow == Bool(false) && Resolve(edge).targetArrow == Bool(false)
  {
  }

  datatype ArrowEnd = SourceEnd | TargetEnd

  /** The controls of the inspector, with the value the browser reports. */
  datatype Control =
    | StyleSelect(value: string)
    | ColorSelect(value: string)
    | SourceArrowCheckbox
    | TargetArrowCheckbox
    | LabelInput(value: string)

  /** The updater calls the inspector makes. */
  datatype Command =
    | UpdateEdgeStyle(edgeId: string, style: string)
    | UpdateEdgeColor(edgeId: string, color: string)
    | UpdateEdgeLabel(edgeId: string, text: string)
    | ToggleEdgeArrow(edgeId: string, end: ArrowEnd)

  /** The one updater call a control change makes, with the inspector's edge id and the control's value. */
  function CommandFor(edgeId: string, control: Control): (c: Command)
    ensures c.edgeId == edgeId
    ensures control.StyleSelect? <==> c.UpdateEdgeStyle?
    ensures control.ColorSelect? <==> c.UpdateEdgeColor?
    ensures control.LabelInput? <==> c.UpdateEdgeLabel?
    ensures control.StyleSelect? ==> c.style == control.value
    ensures control.ColorSelect? ==> c.color == control.value
    ensures control.LabelInput? ==> c.text == control.value
    ensures control == SourceArrowCheckbox <==> c == ToggleEdgeArrow(edgeId, SourceEnd)
    ensures control == TargetArrowCheckbox <==> c == ToggleEdgeArrow(edgeId, TargetEnd)
  {
    match control
    case StyleSelect(v) => UpdateEdgeStyle(edgeId, v)
    case ColorSelect(v) => UpdateEdgeColor(edgeId, v)
    case SourceArrowCheckbox => ToggleEdgeArrow(edgeId, SourceEnd)
    case TargetArrowCheckbox => ToggleEdgeArrow(edgeId, TargetEnd)
    case LabelInput(v) => UpdateEdgeLabel(edgeId, v)
  }

  /** The commands one control change issues: none when no panel is shown, exactly one otherwise. */
  function Dispatch(edges: seq<Edge>, edgeId: string, control: Control): (cs: seq<Command>)
    ensures Render(edges, edgeId).None? ==> cs == []
    ensures Render(edges, edgeId).Some? ==> |cs| == 1 && cs[0].edgeId == edgeId
    ensures Render(edges, edgeId).Some? ==> cs == [CommandFor(edgeId, control)]
  {
    if Render(edges, edgeId).None? then [] else [CommandFor(edgeId, control)]
  }
}
