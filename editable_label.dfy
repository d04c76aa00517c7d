/**
 * The inline label editor that every node kind renders: viewing or editing,
 * with a local text buffer that reaches the store only on Enter or blur.
 */
module EditableLabel {
  import FlowStore

  /** What the editor renders: an input showing the buffer, or a span showing the prop. */
  datatype View = Input(value: string) | Span(text: string)

  class Editor {
    const store: FlowStore.Store
    const nodeId: string
    /** The `label` prop the parent passes in. */
    var labelProp: string
    var isEditing: bool
    /** The text buffer. */
    var value: string

    /** A freshly mounted editor views the prop and buffers a copy of it. */
    constructor (store: FlowStore.Store, nodeId: string, labelProp: string)
      ensures this.store == store && this.nodeId == nodeId && this.labelProp == labelProp
      ensures !isEditing && value == labelProp
    {
      this.store := store;
      this.nodeId := nodeId;
      this.labelProp := labelProp;
      isEditing := false;
      value := labelProp;
    }

    /** In editing mode the buffer is shown; in viewing mode the prop, whatever the buffer holds. */
    function Render(): (v: View)
      reads this
      ensures isEditing <==> v.Input?
      ensures v.Input? ==> v.value == value
      ensures v.Span? ==> v.text == labelProp
    {
      if isEditing then Input(value) else Span(labelProp)
    }

    /** The parent re-renders with a new prop; the buffer keeps its text. */
    method SetLabelProp(text: string)
      modifies this
      ensures labelProp == text && isEditing == old(isEditing) && value == old(value)
    {
      labelProp := text;
    }

    /** Double-click enters editing; the buffer is left as it was. */
    method OnDoubleClick()
      modifies this
      ensures isEditing && value == old(value) && labelProp == old(labelProp)
    {
      isEditing := true;
    }

    /** Typing replaces the buffer and nothing else; the store is not called. */
    method OnChange(text: string)
      modifies this
      ensures value == text && isEditing == old(isEditing) && labelProp == old(labelProp)
    {
      value := text;
    }

    /** Enter commits the buffer to the store once and leaves editing; any other key does nothing. */
    method OnKeyDown(key: string)
      modifies this, store
      ensures key == "Enter" ==>
        store.nodes == FlowStore.RelabelAll(old(store.nodes), nodeId, old(value)) && !isEditing
      ensures key != "Enter" ==> store.nodes == old(store.nodes) && isEditing == old(isEditing)
      ensures store.edges == old(store.edges)
      ensures value == old(value) && labelProp == old(labelProp)
    {
      if key == "Enter" {
        store.UpdateNodeLabel(nodeId, value);
        isEditing := false;
      }
    }

    /** Losing focus commits the same buffer once and leaves editing. */
    method OnBlur()
      modifies this, store
      ensures store.nodes == FlowStore.RelabelAll(old(store.nodes), nodeId, old(value)) && !isEditing
      ensures store.edges == old(store.edges)
      ensures value == old(value) && labelProp == old(labelProp)
    {
      store.UpdateNodeLabel(nodeId, value);
      isEditing := false;
    }
  }
}
