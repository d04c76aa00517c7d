/**
 * The four node kinds and, for each, the handles it renders (where edges may
 * attach) and the widgets it carries.
 */
module CustomNodes {
  import opened Wrappers

  datatype NodeKind = Start | Process | Decision | End

  datatype HandleType = Source | Target

  /** The side of the node a handle sits on. */
  datatype Position = Top | Right | Bottom | Left

  /** A connection anchor; `id` is unset for the default handle of its type. */
  datatype Handle = Handle(handleType: HandleType, position: Position, id: Option<string>)

  /** What a node renders besides its handles. */
  datatype Widget = LabelEditor | PeopleAssigned | AutomationIndicator | ApplicationsList

  function Sources(hs: seq<Handle>): (r: seq<Handle>)
    ensures forall h :: h in r <==> h in hs && h.handleType == Source
    ensures |r| <= |hs|
  {
    if hs == [] then []
    else (if hs[0].handleType == Source then [hs[0]] else []) + Sources(hs[1..])
  }

  function Targets(hs: seq<Handle>): (r: seq<Handle>)
    ensures forall h :: h in r <==> h in hs && h.handleType == Target
    ensures |r| <= |hs|
  {
    if hs == [] then []
    else (if hs[0].handleType == Target then [hs[0]] else []) + Targets(hs[1..])
  }

  /** The handles each kind renders, in document order; `HandleLayout` states the layout by type. */
  function Handles(kind: NodeKind): (hs: seq<Handle>)
    ensures |hs| == |Sources(hs)| + |Targets(hs)|
    ensures forall h :: h in hs && h.handleType == Target ==> h == Handle(Target, Top, None)
  {
    match kind
    case Start => [Handle(Source, Bottom, None)]
    case Process => [Handle(Target, Top, None), Handle(Source, Bottom, None)]
    case Decision =>
      [Handle(Target, Top, None), Handle(Source, Bottom, None),
       Handle(Source, Right, Some("true")), Handle(Source, Left, Some("false"))]
    case End => [Handle(Target, Top, None)]
  }

  /**
   * Start: one source at the bottom, no target. End: one target at the top, no
   * source. Process: a target at the top, a source at the bottom. Decision: a
   * target at the top and sources at the bottom (no id), right (`true`) and
   * left (`false`).
   */
  lemma HandleLayout(kind: NodeKind)
    ensures kind == Start ==> Targets(Handles(kind)) == [] && Sources(Handles(kind)) == [Handle(Source, Bottom, None)]
    ensures kind == End ==> Sources(Handles(kind)) == [] && Targets(Handles(kind)) == [Handle(Target, Top, None)]
    ensures kind == Process ==>
      Targets(Handles(kind)) == [Handle(Target, Top, None)] && Sources(Handles(kind)) == [Handle(Source, Bottom, None)]
    ensures kind == Decision ==>
      Targets(Handles(kind)) == [Handle(Target, Top, None)] &&
      Sources(Handles(kind)) == [Handle(Source, Bottom, None), Handle(Source, Right, Some("true")),
                                 Handle(Source, Left, Some("false"))]
  {
    var hs := Handles(kind);
    match kind
    case Start =>
    case End =>
    case Process =>
      assert hs[1..] == [Handle(Source, Bottom, None)];
    case Decision =>
      var left, right := Handle(Source, Left, Some("false")), Handle(Source, Right, Some("true"));
      assert hs[1..][1..][1..] == [left];
      assert Sources(hs[1..][1..][1..]) == [left];
      assert Sources(hs[1..][1..]) == [right, left];
      assert Sources(hs[1..]) == [Handle(Source, Bottom, None), right, left];
  }

  /** Within one node, two handles of the same type never share an id. */
  lemma HandleIdsDistinct(kind: NodeKind)
    ensures var hs := Handles(kind);
      forall i, j :: 0 <= i < j < |hs| && hs[i].handleType == hs[j].handleType ==> hs[i].id != hs[j].id
  {
  }

  /** An edge may leave a node of `kind` through the handle `id`. */
  predicate CanLeave(kind: NodeKind, id: Option<string>) {
    exists h :: h in Sources(Handles(kind)) && h.id == id
  }

  /** An edge may enter a node of `kind` through the handle `id`. */
  predicate CanEnter(kind: NodeKind, id: Option<string>) {
    exists h :: h in Targets(Handles(kind)) && h.id == id
  }

  /** Every kind but start receives edges, and only through its unnamed top handle. */
  lemma EnterRule(kind: NodeKind, id: Option<string>)
    ensures CanEnter(kind, id) <==> kind != Start && id == None
  {
    HandleLayout(kind);
    if kind != Start && id == None {
      assert Handle(Target, Top, None) in Targets(Handles(kind));
    }
  }

  /**
   * End nodes emit no edges; start and process nodes emit through their unnamed
   * handle; decision nodes through the unnamed, the `true` and the `false` handle.
   */
  lemma LeaveRule(kind: NodeKind, id: Option<string>)
    ensures CanLeave(kind, id) <==>
      match kind
      case End => false
      case Decision => id == None || id == Some("true") || id == Some("false")
      case _ => id == None
  {
    var ss := Sources(Handles(kind));
    HandleLayout(kind);
    match kind
    case End =>
    case Decision =>
      if id == None {
        assert ss[0].id == id;
      } else if id == Some("true") {
        assert ss[1].id == id;
      } else if id == Some("false") {
        assert ss[2].id == id;
      }
    case _ =>
      if id == None {
        assert ss[0].id == id;
      }
  }

  /** The widgets each kind renders: every kind has an editable label, only process and decision nodes the rest. */
  function Widgets(kind: NodeKind): (ws: set<Widget>)
    ensures LabelEditor in ws
    ensures PeopleAssigned in ws <==> kind == Process || kind == Decision
    ensures AutomationIndicator in ws <==> kind == Process || kind == Decision
    ensures ApplicationsList in ws <==> kind == Process || kind == Decision
  {
    match kind
    case Start => {LabelEditor}
    case End => {LabelEditor}
    case Process => {LabelEditor, PeopleAssigned, AutomationIndicator, ApplicationsList}
    case Decision => {LabelEditor, PeopleAssigned, AutomationIndicator, ApplicationsList}
  }
}
