/** The editor screen as composed: the editor state, a font dropdown and a
    colour dropdown. Each dropdown is shown the PENDING value of its kind, and
    its selection callback overwrites that pending value; the apply button
    commits both. */
module Screen {
  import opened Options
  import opened Editor
  import opened Picker

  class EditorScreen {
    const editor: TextEditor
    const fontPicker: Dropdown<FontOption>
    const colorPicker: Dropdown<ColorOption>

    /** Both dropdowns are consistent, each lists all members of its choice
        type in declaration order, and they are two distinct objects. */
    ghost predicate Valid()
      reads this, fontPicker, colorPicker
    {
      && fontPicker.Valid() && colorPicker.Valid()
      && fontPicker.menu == FontValues && colorPicker.menu == ColorValues
      && (fontPicker as object) != (colorPicker as object)
    }

    /** The label the font dropdown shows in its closed control. */
    function FontShown(): string
      reads this, editor
    {
      FontLabel(editor.selectedFontTemp)
    }

    /** The label the colour dropdown shows in its closed control. */
    function ColorShown(): string
      reads this, editor
    {
      ColorLabel(editor.selectedColorTemp)
    }

    constructor ()
      ensures Valid() && fresh(editor) && fresh(fontPicker) && fresh(colorPicker)
      ensures editor.State() == Initial
      ensures !fontPicker.expanded && !colorPicker.expanded
      ensures fontPicker.Emitted() == [] && colorPicker.Emitted() == []
    {
      editor := new TextEditor();
      fontPicker := new Dropdown(FontValues);
      colorPicker := new Dropdown(ColorValues);
    }

    method EditText(newText: string)
      requires Valid()
      modifies editor
      ensures Valid()
      ensures editor.State() == Step(old(editor.State()), Event.EditText(newText))
    {
      editor.OnTextChange(newText);
    }

    method TapFont()
      requires Valid()
      modifies fontPicker
      ensures Valid() && fontPicker.expanded
      ensures colorPicker.expanded == old(colorPicker.expanded)
      ensures fontPicker.Emitted() == old(fontPicker.Emitted())
    {
      fontPicker.Tap();
    }

    method DismissFont()
      requires Valid()
      modifies fontPicker
      ensures Valid() && !fontPicker.expanded
      ensures colorPicker.expanded == old(colorPicker.expanded)
      ensures fontPicker.Emitted() == old(fontPicker.Emitted())
    {
      fontPicker.Dismiss();
    }

    /** A tap on a font menu item: the dropdown reports it and closes, and the
        callback makes it the pending font. */
    method ChooseFont(f: FontOption)
      requires Valid() && fontPicker.expanded
      modifies fontPicker, editor
      ensures Valid() && !fontPicker.expanded
      ensures colorPicker.expanded == old(colorPicker.expanded)
      ensures fontPicker.Emitted() == old(fontPicker.Emitted()) + [f]
      ensures editor.State() == Step(old(editor.State()), PickFont(f))
      ensures FontShown() == FontLabel(f)
    {
      FontValuesEnumerate();
      var chosen := fontPicker.Select(f);
      editor.OnFontSelected(chosen);
    }

    method TapColor()
      requires Valid()
      modifies colorPicker
      ensures Valid() && colorPicker.expanded
      ensures fontPicker.expanded == old(fontPicker.expanded)
      ensures colorPicker.Emitted() == old(colorPicker.Emitted())
    {
      colorPicker.Tap();
    }

    method DismissColor()
      requires Valid()
      modifies colorPicker
      ensures Valid() && !colorPicker.expanded
      ensures fontPicker.expanded == old(fontPicker.expanded)
      ensures colorPicker.Emitted() == old(colorPicker.Emitted())
    {
      colorPicker.Dismiss();
    }

    /** A tap on a colour menu item: the dropdown reports it and closes, and
        the callback makes it the pending colour. */
    method ChooseColor(c: ColorOption)
      requires Valid() && colorPicker.expanded
      modifies colorPicker, editor
      ensures Valid() && !colorPicker.expanded
      ensures fontPicker.expanded == old(fontPicker.expanded)
      ensures colorPicker.Emitted() == old(colorPicker.Emitted()) + [c]
      ensures editor.State() == Step(old(editor.State()), PickColor(c))
      ensures ColorShown() == ColorLabel(c)
    {
      ColorValuesEnumerate();
      var chosen := colorPicker.Select(c);
      editor.OnColorSelected(chosen);
    }

    /** The apply button. */
    method ApplyChanges()
      requires Valid()
      modifies editor
      ensures Valid()
      ensures editor.State() == Step(old(editor.State()), Event.Apply)
      ensures editor.CurrentStyle().fontFamily == FontFamilyOf(old(editor.selectedFontTemp))
      ensures editor.CurrentStyle().color == ColorOf(old(editor.selectedColorTemp))
    {
      editor.OnApply();
    }
  }
}
