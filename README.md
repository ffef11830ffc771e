# Dropdown text editor: staged font and colour selection

A model of the one screen of the Dropdown app (`Dropdown.kt`): a text field,
a font dropdown, a colour dropdown and an apply button. The dropdowns write
only to a *pending* font/colour pair; the apply button copies both pending
values into the *committed* pair, and the text field is styled from the
committed pair alone. Each dropdown is one `expanded` flag: a tap on its
control opens it, a dismiss closes it without a selection, and a tap on a
menu item reports that item to the dropdown's selection callback and closes it.

Files:

- `options.dfy` (module `Options`): the closed choice sets `FontOption` and
  `ColorOption`, their display labels, their platform handles (as tags), and
  `FontValues`/`ColorValues`, the members in declaration order as the menus
  list them.
- `editor.dfy` (module `Editor`): the five state variables as a value
  (`EditorState`), the four events (`Event`), one step (`Step`), a run of
  steps (`Run`) and the rendered style (`Style`), with the lemmas about
  them; and the class `TextEditor`, whose fields are the five variables and
  whose methods are the four event callbacks, each proved against `Step`.
- `picker.dfy` (module `Picker`): the dropdown state machine, once,
  generically over the choice type: `PickerStep`, `PickerRun` and
  `Openings` on values, with the lemmas, and the class `Dropdown<T>`
  with the `expanded` flag and a ghost history of the events it received.
- `screen.dfy` (module `Screen`): the class `EditorScreen` that wires the
  two dropdowns to the editor: each dropdown shows the pending value of its
  kind, and its selection callback overwrites that pending value.

A dropdown's report to its selection callback is modelled as the value
`Dropdown.Select` returns; `EditorScreen.ChooseFont`/`ChooseColor` pass it to
the editor's callback, as the lambdas at `Dropdown.kt` lines 97 and 114 do.

## Model

| member | source | states |
|---|---|---|
| Options.FontOrdinal | app/src/main/java/com/example/dropdown/items/Dropdown.kt:38-43 | every font option has a position in declaration order, and `values()` holds that option at that position |
| Options.ColorOrdinal | app/src/main/java/com/example/dropdown/items/Dropdown.kt:45-50 | every colour option has a position in declaration order, and `values()` holds that option at that position |
| Options.FontValuesEnumerate | app/src/main/java/com/example/dropdown/items/Dropdown.kt:165 | the font menu lists four entries, every font option among them, each exactly once (position and ordinal are inverse), in declaration order Default, Serif, SansSerif, Monospace |
| Options.ColorValuesEnumerate | app/src/main/java/com/example/dropdown/items/Dropdown.kt:227 | the colour menu lists four entries, every colour option among them, each exactly once, in declaration order Black, Red, Blue, Green |
| Options.FontAttributesDistinct | app/src/main/java/com/example/dropdown/items/Dropdown.kt:38-43 | two font options have the same label, or the same font-family handle, exactly when they are the same option |
| Options.ColorAttributesDistinct | app/src/main/java/com/example/dropdown/items/Dropdown.kt:45-50 | two colour options have the same label, or the same colour handle, exactly when they are the same option |
| Editor.StepFrame | app/src/main/java/com/example/dropdown/items/Dropdown.kt:65-124 | a text edit sets only the text; a font pick sets only the pending font; a colour pick sets only the pending colour; Apply sets the committed pair to the pending pair and changes nothing else |
| Editor.ApplyIdempotent | app/src/main/java/com/example/dropdown/items/Dropdown.kt:120-124 | pressing Apply twice in a row leaves the same state as pressing it once |
| Editor.OnlyApplyCommits | app/src/main/java/com/example/dropdown/items/Dropdown.kt:65-124 | every event other than Apply leaves the committed pair and the rendered style unchanged |
| Editor.StyleIsCommittedPair | app/src/main/java/com/example/dropdown/items/Dropdown.kt:76-80 | two states render the same text style exactly when their committed pairs are equal: the style reads the committed pair, never the pending one, and shows which pair is committed |
| Editor.RunWithoutApplyKeepsCommitted | app/src/main/java/com/example/dropdown/items/Dropdown.kt:65-124 | any sequence of text edits and pending picks without an Apply leaves the committed pair and the rendered style as they were (from the initial state: Default and Black) |
| Editor.PendingIsLatest | app/src/main/java/com/example/dropdown/items/Dropdown.kt:67-115 | after any sequence of events the text is the most recent edit and the pending font and colour are the most recent picks (or the starting values if there were none) |
| Editor.CommittedIsPendingAtLastApply | app/src/main/java/com/example/dropdown/items/Dropdown.kt:120-124 | after any sequence of events containing an Apply, the committed font and colour are the most recent picks made before the last Apply |
| Editor.ApplyScenario | app/src/main/java/com/example/dropdown/items/Dropdown.kt:54-124 | from the initial state, picking Monospace and Red leaves the committed pair at Default/Black; pressing Apply then renders the text in Monospace and Red |
| Editor.TextEditor.constructor | app/src/main/java/com/example/dropdown/items/Dropdown.kt:54-58 | the editor starts with empty text, pending Default/Black and committed Default/Black |
| Editor.TextEditor.OnTextChange | app/src/main/java/com/example/dropdown/items/Dropdown.kt:67 | the text becomes the new value unconditionally; the four style fields keep their values |
| Editor.TextEditor.OnFontSelected | app/src/main/java/com/example/dropdown/items/Dropdown.kt:97 | the pending font becomes the chosen font; pending colour, committed pair and text keep their values |
| Editor.TextEditor.OnColorSelected | app/src/main/java/com/example/dropdown/items/Dropdown.kt:114 | the pending colour becomes the chosen colour; pending font, committed pair and text keep their values |
| Editor.TextEditor.OnApply | app/src/main/java/com/example/dropdown/items/Dropdown.kt:121-124 | the committed font and colour become the pending ones; pending pair and text keep their values |
| Picker.PickerStepCases | app/src/main/java/com/example/dropdown/items/Dropdown.kt:147-176 | a tap opens the menu and reports nothing; a dismiss closes it and reports nothing; choosing an item on the open menu reports exactly that item and closes it; a closed picker never reports a selection; a step that reports leaves the picker closed |
| Picker.OncePerOpening | app/src/main/java/com/example/dropdown/items/Dropdown.kt:137-176 | over any sequence of events, the selections reported (plus one if the menu is still open) never exceed the closed-to-open transitions (plus one if it started open): from the closed start, at most one selection per open/close cycle |
| Picker.EmittedWereChosen | app/src/main/java/com/example/dropdown/items/Dropdown.kt:165-176 | every selection a picker reports is the item of a tap on a menu entry |
| Picker.Dropdown.constructor | app/src/main/java/com/example/dropdown/items/Dropdown.kt:137 | a picker starts closed, with nothing reported, over the menu it is given |
| Picker.Dropdown.Tap | app/src/main/java/com/example/dropdown/items/Dropdown.kt:147 | a tap on the control leaves the picker open and reports nothing; the once-per-opening invariant is kept |
| Picker.Dropdown.Dismiss | app/src/main/java/com/example/dropdown/items/Dropdown.kt:162 | a dismiss leaves the picker closed and reports nothing; the invariant is kept |
| Picker.Dropdown.Select | app/src/main/java/com/example/dropdown/items/Dropdown.kt:173-176 | choosing a menu item reports exactly that item, once, and leaves the picker closed; every reported item is a menu item; the invariant is kept |
| Screen.EditorScreen.constructor | app/src/main/java/com/example/dropdown/items/Dropdown.kt:54-58 | the screen starts in the initial editor state with both dropdowns closed, the font dropdown listing every font option and the colour dropdown every colour option |
| Screen.EditorScreen.EditText | app/src/main/java/com/example/dropdown/items/Dropdown.kt:65-67 | typing changes the editor state exactly as a text-edit step |
| Screen.EditorScreen.TapFont | app/src/main/java/com/example/dropdown/items/Dropdown.kt:147 | tapping the font control opens the font dropdown and leaves the colour dropdown and the reported selections as they were |
| Screen.EditorScreen.DismissFont | app/src/main/java/com/example/dropdown/items/Dropdown.kt:162 | dismissing the font menu closes it without a selection and without touching the editor |
| Screen.EditorScreen.ChooseFont | app/src/main/java/com/example/dropdown/items/Dropdown.kt:95-98 | choosing a font closes the font dropdown, reports the font once, makes it the pending font (a font-pick step) and shows its label in the closed control |
| Screen.EditorScreen.TapColor | app/src/main/java/com/example/dropdown/items/Dropdown.kt:198 | tapping the colour control opens the colour dropdown and leaves the font dropdown and the reported selections as they were |
| Screen.EditorScreen.DismissColor | app/src/main/java/com/example/dropdown/items/Dropdown.kt:224 | dismissing the colour menu closes it without a selection and without touching the editor |
| Screen.EditorScreen.ChooseColor | app/src/main/java/com/example/dropdown/items/Dropdown.kt:112-115 | choosing a colour closes the colour dropdown, reports the colour once, makes it the pending colour (a colour-pick step) and shows its label in the closed control |
| Screen.EditorScreen.ApplyChanges | app/src/main/java/com/example/dropdown/items/Dropdown.kt:120-124 | the apply button is an Apply step, after which the text field renders the previously pending font family and colour |

`FontDropdown` (lines 132-181) and `ColorDropdown` (lines 183-252) differ
only in their choice type and in what they draw; both are `Picker.Dropdown`.
The rows citing the font dropdown's lines hold equally for the colour
dropdown's (`expanded = true` at line 198, dismiss at line 224, item click at
lines 244-247).

## Left out

- Layout and drawing: columns, rows, boxes, modifiers, borders, padding,
  sizes, icons, placeholder and caption texts, the colour swatches. They have
  no behaviour to state.
- The platform font families and colours are opaque tags
  (`Options.FontFamily`, `Options.Color`), not real fonts or colours; only
  their distinctness is used. The font size 16 is kept as a number.
- The Compose runtime (`remember`, `mutableStateOf`, recomposition, event
  dispatch): each event is a sequential method call on an object, as the
  single-threaded event loop delivers them.
- The selection callback is not a function parameter: `Dropdown.Select`
  returns the chosen item and the screen passes it on to the editor.
- Picker.Dropdown.Select: requires the menu to be open and the item to be in
  the menu, because the menu items exist on screen only while `expanded` is
  true and they are exactly the members of the choice type; the value-level
  `PickerStep` treats a Choose on a closed picker as a tap that reaches no item.
- The dismiss gesture is whatever the menu reports through
  `onDismissRequest`; which gestures trigger it is the platform's decision.
