# Flow-diagram editor: a verified model of its state logic

The editor is a React single-page application. The user drags four node kinds
(start, process, decision, end) from a palette onto a canvas. Nodes are joined
with custom edges, and a node is renamed in place. Process and decision nodes
also carry small widgets: assigned people, an automation status and an
applications picker. An edge inspector shows one edge's styling with defaults
filled in.

This project models the state logic behind that UI:

- `FlowStore` models the graph store. `Store` is a class holding two ordered
  sequences, `nodes` and `edges`; its five actions replace them. The canvas
  library's `applyNodeChanges`, `applyEdgeChanges` and `addEdge` are handed to
  the store as a `ReactFlow` value of functions, and the store promises only
  that it installs their results.
- `App` models the session counter that mints `node_1`, `node_2`, … and the
  drop handler. The handler aborts on an empty payload or missing canvas
  bounds. Otherwise it translates the drop point, capitalises the type token
  for the label, and adds exactly one node.
- `EditableLabel` models the inline label editor: viewing or editing, with a
  text buffer that is committed to the store on Enter or on blur.
- `EdgeControls` models the edge inspector. It finds the edge, resolves the
  `||` defaults, and maps each control to one updater command. The store
  declares none of the four updaters (`updateEdgeStyle`, `updateEdgeColor`,
  `updateEdgeLabel`, `toggleEdgeArrow`). The model therefore stops at the
  command the inspector issues.
- `NodeComponents` models the three widgets as classes: `PeopleAssigned`,
  `AutomationIndicator` and `ApplicationsList`.
  - The applications picker keeps an invariant: the selected apps are all
    available, and neither list repeats an entry. Every handler preserves it,
    `ToggleApp` on the condition that the app is listed.
- `CustomNodes` models the handles and widgets each node kind renders. From
  them follow where an edge may leave or enter a node.
- `Graph`, `Strings` and `Wrappers` hold shared pieces:
  - the node, edge and change values, and JavaScript values with their
    truthiness;
  - the JavaScript string operations the handlers use (`trim`,
    `toLowerCase`, `includes`, capitalising the first character, and the
    decimal text of a counter);
  - `Option`.

The model keeps three behaviours of the code as written:

- `addNode` appends without checking that the id is new.
- The inspector shows the target arrow unchecked when the edge has no flag.
- The label editor edits node labels only.

## Model

| member | source | states |
|---|---|---|
| Graph.Truthy | src/components/EdgeControls.tsx:35-39 | a value is truthy exactly when it is not `undefined`, `null`, `false`, `0` or `''` |
| Graph.Get | src/components/EdgeControls.tsx:35-39 | `obj?.[key]` is the stored value when the object and key exist, and `undefined` otherwise |
| FlowStore.Relabel | src/store/flowStore.ts:53 | the relabelled node keeps id, type, position and library fields; `data` gains `label` = the new text and keeps every other key and value |
| FlowStore.RelabelAll | src/store/flowStore.ts:52-54 | same length; each node with the id is relabelled, and every other node is kept at its position |
| FlowStore.RelabelMissingId | src/store/flowStore.ts:52-54 | an id that no node has leaves the sequence equal to the input |
| FlowStore.RelabelIdempotent | src/store/flowStore.ts:52-54 | relabelling twice with the same id and text equals relabelling once |
| FlowStore.RelabelKeepsShape | src/store/flowStore.ts:50-55 | relabelling keeps every node's id, type, position and library fields, in order |
| FlowStore.ConnectionEdge | src/store/flowStore.ts:36-40 | the new edge carries the connection's source, target and both handles, type `custom`, and an id `edge-` followed by the random text |
| FlowStore.Store.constructor | src/store/flowStore.ts:22-24 | the store starts with no nodes and no edges |
| FlowStore.Store.OnNodesChange | src/store/flowStore.ts:25-29 | nodes become the library's result on the old nodes; edges unchanged |
| FlowStore.Store.OnEdgesChange | src/store/flowStore.ts:30-34 | edges become the library's result on the old edges; nodes unchanged |
| FlowStore.Store.OnConnect | src/store/flowStore.ts:35-44 | edges become `addEdge` of the built edge and the old edges; nodes unchanged |
| FlowStore.Store.AddNode | src/store/flowStore.ts:45-49 | nodes become the old nodes plus the new node at the end, with no id check; edges unchanged |
| FlowStore.Store.UpdateNodeLabel | src/store/flowStore.ts:50-56 | nodes become the relabelled sequence; edges unchanged |
| App.KindName | src/App.tsx:17-22 | every kind is registered under one of the four keys `start`, `process`, `decision`, `end` |
| App.KindOf | src/App.tsx:17-22 | a token selects a kind exactly when it is one of the four registered names, and the kind's name is the token |
| App.KindNameRoundTrip | src/App.tsx:17-22 | every kind is found again under its registered name |
| App.NodeIdOf | src/App.tsx:29 | the id is `node_` followed by the decimal form of the counter |
| App.NodeIdInjective | src/App.tsx:29 | two counter values give the same id if and only if they are equal |
| App.Session.constructor | src/App.tsx:28 | the counter starts at 1 with no ids issued |
| App.Session.GetNodeId | src/App.tsx:28-29 | returns `node_<k>` for the current counter k and advances it by one; the id was not issued before in the session |
| App.IssuedDistinct | src/App.tsx:28-29 | the ids issued in a session are pairwise distinct |
| App.DropPosition | src/App.tsx:56-59 | the canvas position plus the canvas origin is the pointer's screen position |
| App.DroppedNode | src/App.tsx:61-66 | the new node has the minted id, the token verbatim as its type, the drop position, and only a `label` = the capitalised token in its data |
| App.OnDrop | src/App.tsx:46-71 | an empty payload or missing bounds change neither the nodes nor the counter; otherwise exactly one node is appended, with the next id, and the counter advances; edges are never touched |
| App.DropScenario | src/App.tsx:46-71 | in a fresh session, dropping `process` at (100, 50) yields exactly `node_1` labelled `Process` at (100, 50), and the counter becomes 2 |
| App.ScenarioNode | src/App.tsx:61-66 | the node built for that drop is `node_1` of type `process`, labelled `Process` |
| EditableLabel.Editor.constructor | src/components/EditableLabel.tsx:9-11 | a new editor is viewing, and its buffer holds the label prop |
| EditableLabel.Editor.Render | src/components/EditableLabel.tsx:34-51 | while editing, an input showing the buffer; while viewing, a span showing the prop, not the buffer |
| EditableLabel.Editor.SetLabelProp | src/components/EditableLabel.tsx:9-11 | a new prop is not copied into the buffer |
| EditableLabel.Editor.OnDoubleClick | src/components/EditableLabel.tsx:14-16 | double-click starts editing and keeps the buffer |
| EditableLabel.Editor.OnChange | src/components/EditableLabel.tsx:18-20 | typing changes only the buffer; the store is not called |
| EditableLabel.Editor.OnKeyDown | src/components/EditableLabel.tsx:22-27 | Enter relabels the node in the store with the buffer and stops editing; any other key changes nothing |
| EditableLabel.Editor.OnBlur | src/components/EditableLabel.tsx:29-32 | blur relabels the node with the buffer and stops editing |
| EdgeControls.StyleLabel | src/components/EdgeControls.tsx:6-12 | a style has a non-empty display name exactly when it is one of the five offered styles |
| EdgeControls.StyleTable | src/components/EdgeControls.tsx:5-12 | exactly five distinct styles, and a style has a display name if and only if it is one of them |
| EdgeControls.ColorTable | src/components/EdgeControls.tsx:14-20 | five colors with distinct values; the first is the default gray |
| EdgeControls.FindEdge | src/components/EdgeControls.tsx:27 | no result if and only if no edge has the id; otherwise the first edge with that id |
| EdgeControls.Field | src/components/EdgeControls.tsx:35-39 | the stored value when it is truthy, the fallback otherwise |
| EdgeControls.Resolve | src/components/EdgeControls.tsx:35-39 | each of style, color, label and the two arrow flags shows the stored value when it is truthy and its default (`bezier`, `#64748b`, `''`, false, false) otherwise, also when `data` exists without the key; style and color are always truthy; an edge without data shows all five defaults |
| EdgeControls.Render | src/components/EdgeControls.tsx:27-39 | the inspector renders nothing if and only if no edge has the id; otherwise it shows the resolved fields (`Resolve`) of the first edge with that id (`FindEdge`) |
| EdgeControls.ArrowsDefaultOff | src/components/EdgeControls.tsx:38-39 | absent or falsy arrow flags show both arrows unchecked, the target arrow included |
| EdgeControls.CommandFor | src/components/EdgeControls.tsx:54-111 | each control maps to its own updater, carrying the inspector's edge id and the control's value; the two checkboxes toggle `source` and `target` respectively |
| EdgeControls.Dispatch | src/components/EdgeControls.tsx:33-111 | no command when nothing is rendered; otherwise exactly the one command `CommandFor` gives the control, with the edge id |
| Strings.TrimStart | src/components/NodeComponents.tsx:35-36 | the result is a suffix of the input, cut after a whitespace-only prefix, and does not start with whitespace |
| Strings.TrimEnd | src/components/NodeComponents.tsx:35-36 | the result is a prefix of the input, followed by a whitespace-only rest, and does not end with whitespace |
| Strings.Trim | src/components/NodeComponents.tsx:35-36 | the trimmed string is no longer than the input |
| Strings.TrimSpec | src/components/NodeComponents.tsx:35-36 | the trimmed string is the infix left after cutting a whitespace-only prefix and suffix, and it neither starts nor ends with whitespace |
| Strings.AllWhitespaceTrimStart | src/components/NodeComponents.tsx:35 | cutting leading whitespace leaves nothing exactly when the string is whitespace only |
| Strings.TrimEmptyIff | src/components/NodeComponents.tsx:35 | a string trims to `''` (is falsy after `trim`) if and only if it is whitespace only |
| Strings.LowerChar | src/components/NodeComponents.tsx:149 | A–Z move to a–z, every other character is kept |
| Strings.UpperChar | src/App.tsx:65 | a–z move to A–Z, every other character is kept |
| Strings.ToLower | src/components/NodeComponents.tsx:149 | same length, and each character is lowered by `LowerChar`: A–Z become a–z and every other character is kept |
| Strings.Capitalize | src/App.tsx:65 | same length; a lower-case first letter is upper-cased, and the rest is kept |
| Strings.CapitalizeExamples | src/App.tsx:65 | the four palette tokens capitalise to `Start`, `Process`, `Decision`, `End` |
| Strings.Includes | src/components/NodeComponents.tsx:149 | a string that starts with `sub` includes it, and a string includes only substrings no longer than itself |
| Strings.IncludesIff | src/components/NodeComponents.tsx:149 | `includes` holds if and only if the substring occurs at some position |
| Strings.IncludesEmpty | src/components/NodeComponents.tsx:149 | every string includes `''` |
| Strings.DigitChar | src/App.tsx:29 | the character of a digit 0–9 |
| Strings.Decimal | src/App.tsx:29 | a non-empty run of digits that denotes n (`DigitsValue`), with no leading zero, as `${n}` prints a counter |
| Strings.DecimalInjective | src/App.tsx:29 | two numbers have the same numeral if and only if they are equal |
| NodeComponents.RemoveAll | src/components/NodeComponents.tsx:42 | the removed entry is gone; every other entry keeps its number of occurrences |
| NodeComponents.RemoveAllAppend | src/components/NodeComponents.tsx:42 | filtering distributes over concatenation, so the kept entries stay in order |
| NodeComponents.RemoveAllAbsent | src/components/NodeComponents.tsx:164 | removing an absent entry changes nothing |
| NodeComponents.AppendFresh | src/components/NodeComponents.tsx:154-155 | appending an entry not yet present keeps a list free of duplicates |
| NodeComponents.RemoveAllNoDuplicates | src/components/NodeComponents.tsx:164 | filtering keeps a list free of duplicates |
| NodeComponents.PeopleAssigned.constructor | src/components/NodeComponents.tsx:14-15 | starts with Bob and Sue and an empty input |
| NodeComponents.PeopleAssigned.SetNewPerson | src/components/NodeComponents.tsx:83 | typing changes only the input |
| NodeComponents.PeopleAssigned.AddPerson | src/components/NodeComponents.tsx:34-39 | whitespace-only input changes nothing; otherwise the trimmed input is appended, duplicates included, and the input is cleared |
| NodeComponents.PeopleAssigned.RemovePerson | src/components/NodeComponents.tsx:41-43 | every entry equal to the name is removed |
| NodeComponents.PeopleAssigned.HandleKeyPress | src/components/NodeComponents.tsx:45-49 | Enter adds as `addPerson` does; other keys change nothing |
| NodeComponents.IndexOf | src/components/NodeComponents.tsx:106-107 | every status is found in the cycle at its index |
| NodeComponents.Next | src/components/NodeComponents.tsx:105-110 | the next status differs from the current one and sits one place further in the cycle, mod 3 |
| NodeComponents.NextCycles | src/components/NodeComponents.tsx:105-110 | none → partial → full → none, so three toggles return to the start |
| NodeComponents.AutomationIndicator.constructor | src/components/NodeComponents.tsx:103 | the status starts at none |
| NodeComponents.AutomationIndicator.ToggleStatus | src/components/NodeComponents.tsx:105-110 | the status becomes the next one in the cycle |
| NodeComponents.Matches | src/components/NodeComponents.tsx:149 | an app matches exactly when its lower-cased name contains the lower-cased term at some position |
| NodeComponents.Matching | src/components/NodeComponents.tsx:148-150 | an app is listed if and only if it is available and its lower-cased name includes the lower-cased term |
| NodeComponents.MatchingAppend | src/components/NodeComponents.tsx:148-150 | the filter distributes over concatenation, so listed apps keep their order |
| NodeComponents.MatchingEmptyTerm | src/components/NodeComponents.tsx:148-150 | an empty term lists every available app, in order |
| NodeComponents.Toggle | src/components/NodeComponents.tsx:161-167 | a selected app is removed by the order-keeping filter, an unselected one is appended at the end; every other app keeps its membership |
| NodeComponents.ToggleTwice | src/components/NodeComponents.tsx:161-167 | toggling twice restores every app's membership, and restores the list itself when the app was unselected |
| NodeComponents.AddFreshApp | src/components/NodeComponents.tsx:152-159 | adding an app that is not available yet to both lists keeps the picker invariant |
| NodeComponents.ApplicationsList.constructor | src/components/NodeComponents.tsx:125-129 | the default eight apps are available, none is selected, both inputs are empty, and the invariant holds |
| NodeComponents.ApplicationsList.FilteredApps | src/components/NodeComponents.tsx:148-150 | the listed apps are the available apps matching the search term |
| NodeComponents.ApplicationsList.SetSearchTerm | src/components/NodeComponents.tsx:219 | typing changes only the search term |
| NodeComponents.ApplicationsList.SetCustomApp | src/components/NodeComponents.tsx:246 | typing changes only the custom-app input |
| NodeComponents.ApplicationsList.AddCustomApp | src/components/NodeComponents.tsx:152-159 | a non-blank trimmed name not yet available is appended to both lists and both inputs are cleared; otherwise nothing changes; the invariant is kept |
| NodeComponents.ApplicationsList.ToggleApp | src/components/NodeComponents.tsx:161-167 | the selection is toggled and nothing else changes; the invariant is kept when the app is available |
| NodeComponents.ApplicationsList.ToggleListedApp | src/components/NodeComponents.tsx:226-231 | toggling an app from the list toggles the selection, leaves the available apps and both inputs unchanged, and always keeps the invariant |
| NodeComponents.ApplicationsList.RemoveApp | src/components/NodeComponents.tsx:169-171 | the app is deselected, nothing else changes, and the invariant is kept |
| NodeComponents.ApplicationsList.HandleKeyPress | src/components/NodeComponents.tsx:173-177 | Enter with an addable name appends it to both lists and clears both inputs; Enter otherwise, and any other key, changes nothing; the invariant is kept |
| CustomNodes.Handles | src/components/CustomNodes.tsx:16-72 | every handle is a source or a target, and every target handle is the unnamed one at the top |
| CustomNodes.HandleLayout | src/components/CustomNodes.tsx:16-72 | start: one bottom source, no target; end: one top target, no source; process: top target and bottom source; decision: top target and sources at the bottom (unnamed), right (`true`) and left (`false`) |
| CustomNodes.HandleIdsDistinct | src/components/CustomNodes.tsx:58-60 | within a node, two handles of the same type never share an id |
| CustomNodes.EnterRule | src/components/CustomNodes.tsx:16-72 | an edge may enter a node if and only if its kind is not start and it uses the unnamed handle |
| CustomNodes.LeaveRule | src/components/CustomNodes.tsx:16-72 | nothing leaves an end node; start and process nodes emit through the unnamed handle; decision nodes through the unnamed, `true` or `false` handle |
| CustomNodes.Widgets | src/components/CustomNodes.tsx:16-72 | every kind renders a label editor; only process and decision nodes render the people, automation and applications widgets |

## Left out

- Strings.Trim: its own contract gives only the length bound; `Strings.TrimSpec` states what trimming keeps and cuts, so callers need not unfold it.
- The canvas library's `applyNodeChanges`, `applyEdgeChanges` and `addEdge` are foreign code. The store receives them as functions and nothing is assumed about their results, not even that `addEdge` appends.
- `Math.random()` in the edge id is a parameter of `OnConnect` (the text after `edge-`).
- The updaters `updateEdgeStyle`, `updateEdgeColor`, `updateEdgeLabel` and `toggleEdgeArrow` are called by the inspector but not declared by the store. The selectors therefore return `undefined`, and every control change would throw a `TypeError` when the handler calls it. The model ends at the command the inspector means to issue, and no effect on the edges is modelled.
- The drag payload, `document.querySelector(...).getBoundingClientRect()` and the pointer coordinates are inputs of `OnDrop` (a payload string and an optional origin). `preventDefault` and `onDragOver` have no state to model.
- The `isOpen` dropdown toggles and the click-outside `mousedown` listeners of the widgets are pure display state and are left out.
- The label editor's handlers are total methods. The markup attaches `onKeyDown`, `onChange` and `onBlur` only to the input shown while editing, and `onDoubleClick` only to the span; the model does not restrict which mode they are called in.
- App.Session: the counter is an unbounded `nat`; the source's JavaScript number stops advancing at 2^53, after which `getNodeId` would repeat ids, so `GetNodeId`'s freshness and `IssuedDistinct` hold only below that bound.
- Coordinates are integers; the source subtracts IEEE doubles.
- JavaScript numbers in `data` objects are integers, so `NaN` and `-0` (both falsy) are not represented.
- `JsValue` has no object or array case, so a stored object or array (always truthy) cannot appear in an edge's `data`.
- `toLowerCase` and the `toUpperCase` of the first character map ASCII letters only; full Unicode case mapping is not modelled.
- `trim` removes the fixed ECMAScript whitespace and line-terminator set. Strings are sequences of Unicode scalar values rather than UTF-16 code units; for the ASCII-only case mapping used here the two give the same results.
- The edge renderer (`src/components/CustomEdge.tsx`: path geometry, markers) and the palette (`src/components/Sidebar.tsx`, which only writes a type token into the drag payload) are not part of this model.
- CSS classes, icons, layout, memoisation and React's re-render scheduling are not modelled; each handler is one atomic state change.
- React's batching of state updates in one handler is not modelled: `AddCustomApp` and `AddPerson` apply their updates in order, which gives the same final state.
