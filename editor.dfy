/** The state of the text editor screen: the text, the pending font/colour pair
    the dropdowns write to, and the committed pair that styles the text field.
    Apply is the only event that copies pending to committed.

    The value-level part (EditorState, Event, Step, Run, Style) is the
    specification; the class TextEditor holds the five variables as mutable
    fields and its event methods are proved against Step. */
module Editor {
  import opened Options

  /** The five state variables of the editor screen. */
  datatype EditorState = EditorState(
    text: string,
    selectedFontTemp: FontOption,
    selectedColorTemp: ColorOption,
    selectedFont: FontOption,
    selectedColor: ColorOption)

  /** The user events the screen reacts to: typing in the text field, picking a
      font or a colour in a dropdown, and pressing the apply button. */
  datatype Event =
    | EditText(newText: string)
    | PickFont(font: FontOption)
    | PickColor(color: ColorOption)
    | Apply

  /** The style the text field is rendered with. */
  datatype TextStyle = TextStyle(color: Color, fontFamily: FontFamily, fontSize: nat)

  /** The text field's font size, in scale-independent pixels. */
  const FontSizeSp: nat := 16

  /** Empty text; Default and Black both pending and committed. */
  const Initial: EditorState := EditorState("", Default, Black, Default, Black)

  predicate SamePending(s: EditorState, t: EditorState)
  {
    s.selectedFontTemp == t.selectedFontTemp && s.selectedColorTemp == t.selectedColorTemp
  }

  predicate SameCommitted(s: EditorState, t: EditorState)
  {
    s.selectedFont == t.selectedFont && s.selectedColor == t.selectedColor
  }

  /** The effect of one event. */
  function Step(s: EditorState, e: Event): EditorState
  {
    match e
    case EditText(t) => s.(text := t)
    case PickFont(f) => s.(selectedFontTemp := f)
    case PickColor(c) => s.(selectedColorTemp := c)
    case Apply => s.(selectedFont := s.selectedFontTemp, selectedColor := s.selectedColorTemp)
  }

  /** The effect of a sequence of events, dispatched one at a time. */
  function Run(s: EditorState, evs: seq<Event>): EditorState
    decreases |evs|
  {
    if evs == [] then s else Run(Step(s, evs[0]), evs[1..])
  }

  /** The rendered style reads the committed pair and nothing else. */
  function Style(s: EditorState): TextStyle
  {
    TextStyle(ColorOf(s.selectedColor), FontFamilyOf(s.selectedFont), FontSizeSp)
  }

  predicate NoApply(evs: seq<Event>)
  {
    forall j :: 0 <= j < |evs| ==> !evs[j].Apply?
  }

  // ----- Reference definitions: "the most recent" value of each event kind

  /** The text of the most recent edit in `evs`, or `otherwise` if there is none. */
  function LatestText(evs: seq<Event>, otherwise: string): string
    decreases |evs|
  {
    if evs == [] then otherwise
    else if evs[|evs| - 1].EditText? then evs[|evs| - 1].newText
    else LatestText(evs[..|evs| - 1], otherwise)
  }

  /** The font of the most recent font pick in `evs`, or `otherwise`. */
  function LatestFont(evs: seq<Event>, otherwise: FontOption): FontOption
    decreases |evs|
  {
    if evs == [] then otherwise
    else if evs[|evs| - 1].PickFont? then evs[|evs| - 1].font
    else LatestFont(evs[..|evs| - 1], otherwise)
  }

  /** The colour of the most recent colour pick in `evs`, or `otherwise`. */
  function LatestColor(evs: seq<Event>, otherwise: ColorOption): ColorOption
    decreases |evs|
  {
    if evs == [] then otherwise
    else if evs[|evs| - 1].PickColor? then evs[|evs| - 1].color
    else LatestColor(evs[..|evs| - 1], otherwise)
  }

  // ----- Single events

  /** Each event changes only the fields it names: an edit only the text, a
      pick only its own pending field, Apply only the committed pair, which
      it makes equal to the pending pair. */
  lemma StepFrame(s: EditorState, e: Event)
    ensures e.EditText? ==>
      Step(s, e).text == e.newText && SamePending(Step(s, e), s) && SameCommitted(Step(s, e), s)
    ensures e.PickFont? ==>
      && Step(s, e).selectedFontTemp == e.font && Step(s, e).selectedColorTemp == s.selectedColorTemp
      && Step(s, e).text == s.text && SameCommitted(Step(s, e), s)
    ensures e.PickColor? ==>
      && Step(s, e).selectedColorTemp == e.color && Step(s, e).selectedFontTemp == s.selectedFontTemp
      && Step(s, e).text == s.text && SameCommitted(Step(s, e), s)
    ensures e.Apply? ==>
      && Step(s, e).selectedFont == s.selectedFontTemp && Step(s, e).selectedColor == s.selectedColorTemp
      && Step(s, e).text == s.text && SamePending(Step(s, e), s)
  {
  }

  /** Applying twice is applying once. */
  lemma ApplyIdempotent(s: EditorState)
    ensures Step(Step(s, Apply), Apply) == Step(s, Apply)
  {
  }

  /** Apply is the only event that changes the committed pair or the style. */
  lemma OnlyApplyCommits(s: EditorState, e: Event)
    requires !e.Apply?
    ensures SameCommitted(Step(s, e), s)
    ensures Style(Step(s, e)) == Style(s)
  {
  }

  /** The style determines the committed pair and is determined by it alone:
      pending values never show. */
  lemma StyleIsCommittedPair(s: EditorState, t: EditorState)
    ensures Style(s) == Style(t) <==> SameCommitted(s, t)
  {
  }

  // ----- Sequences of events

  lemma {:induction false} RunAppend(s: EditorState, a: seq<Event>, b: seq<Event>)
    ensures Run(s, a + b) == Run(Run(s, a), b)
    decreases |a|
  {
    if a == [] {
      assert a + b == b;
    } else {
      assert (a + b)[0] == a[0];
      assert (a + b)[1..] == a[1..] + b;
      RunAppend(Step(s, a[0]), a[1..], b);
    }
  }

  /** Without an Apply, text edits and pending picks in any number and order
      leave the committed pair, hence the rendered style, as they were. */
  lemma {:induction false} RunWithoutApplyKeepsCommitted(s: EditorState, evs: seq<Event>)
    requires NoApply(evs)
    ensures SameCommitted(Run(s, evs), s)
    ensures Style(Run(s, evs)) == Style(s)
    decreases |evs|
  {
    if evs != [] {
      assert !evs[0].Apply?;
      RunWithoutApplyKeepsCommitted(Step(s, evs[0]), evs[1..]);
    }
  }

  /** After any events, the text and the pending pair hold the most recent
      edit and the most recent picks. */
  lemma {:induction false} PendingIsLatest(s: EditorState, evs: seq<Event>)
    ensures Run(s, evs).text == LatestText(evs, s.text)
    ensures Run(s, evs).selectedFontTemp == LatestFont(evs, s.selectedFontTemp)
    ensures Run(s, evs).selectedColorTemp == LatestColor(evs, s.selectedColorTemp)
    decreases |evs|
  {
    if evs != [] {
      var n := |evs| - 1;
      assert evs == evs[..n] + [evs[n]];
      RunAppend(s, evs[..n], [evs[n]]);
      PendingIsLatest(s, evs[..n]);
    }
  }

  /** The committed pair is the pending pair as it stood at the last Apply. */
  lemma CommittedIsPendingAtLastApply(s: EditorState, evs: seq<Event>, k: nat)
    requires k < |evs| && evs[k].Apply?
    requires NoApply(evs[k + 1..])
    ensures Run(s, evs).selectedFont == LatestFont(evs[..k], s.selectedFontTemp)
    ensures Run(s, evs).selectedColor == LatestColor(evs[..k], s.selectedColorTemp)
  {
    assert evs == evs[..k] + [evs[k]] + evs[k + 1..];
    RunAppend(s, evs[..k] + [evs[k]], evs[k + 1..]);
    RunAppend(s, evs[..k], [evs[k]]);
    RunWithoutApplyKeepsCommitted(Run(s, evs[..k + 1]), evs[k + 1..]);
    PendingIsLatest(s, evs[..k]);
  }

  /** Opening the font menu and picking Monospace, then the colour menu and
      picking Red, then pressing Apply renders the text in Monospace and Red;
      before Apply nothing committed has changed. */
  lemma ApplyScenario()
    ensures SameCommitted(Run(Initial, [PickFont(Monospace), PickColor(Red)]), Initial)
    ensures Style(Run(Initial, [PickFont(Monospace), PickColor(Red), Apply]))
         == TextStyle(RedColor, MonospaceFamily, FontSizeSp)
  {
  }

  /** The editor screen's five state variables, overwritten by the event
      callbacks of the text field, the two dropdowns and the apply button. */
  class TextEditor {
    var text: string
    var selectedFontTemp: FontOption
    var selectedColorTemp: ColorOption
    var selectedFont: FontOption
    var selectedColor: ColorOption

    function State(): EditorState
      reads this
    {
      EditorState(text, selectedFontTemp, selectedColorTemp, selectedFont, selectedColor)
    }

    /** The style the text field is currently rendered with. */
    function CurrentStyle(): TextStyle
      reads this
    {
      Style(State())
    }

    constructor ()
      ensures State() == Initial
      ensures text == "" && selectedFontTemp == Default && selectedColorTemp == Black
      ensures selectedFont == Default && selectedColor == Black
    {
      text := "";
      selectedFontTemp, selectedColorTemp := Default, Black;
      selectedFont, selectedColor := Default, Black;
    }

    /** The text field's value-change callback. */
    method OnTextChange(newText: string)
      modifies this
      ensures State() == Step(old(State()), EditText(newText))
      ensures text == newText
      ensures selectedFontTemp == old(selectedFontTemp) && selectedColorTemp == old(selectedColorTemp)
      ensures selectedFont == old(selectedFont) && selectedColor == old(selectedColor)
    {
      text := newText;
    }

    /** The font dropdown's selection callback. */
    method OnFontSelected(f: FontOption)
      modifies this
      ensures State() == Step(old(State()), PickFont(f))
      ensures selectedFontTemp == f && selectedColorTemp == old(selectedColorTemp)
      ensures selectedFont == old(selectedFont) && selectedColor == old(selectedColor)
      ensures text == old(text)
    {
      selectedFontTemp := f;
    }

    /** The colour dropdown's selection callback. */
    method OnColorSelected(c: ColorOption)
      modifies this
      ensures State() == Step(old(State()), PickColor(c))
      ensures selectedColorTemp == c && selectedFontTemp == old(selectedFontTemp)
      ensures selectedFont == old(selectedFont) && selectedColor == old(selectedColor)
      ensures text == old(text)
    {
      selectedColorTemp := c;
    }

    /** The apply button's click callback. */
    method OnApply()
      modifies this
      ensures State() == Step(old(State()), Apply)
      ensures selectedFont == old(selectedFontTemp) && selectedColor == old(selectedColorTemp)
      ensures selectedFontTemp == old(selectedFontTemp) && selectedColorTemp == old(selectedColorTemp)
      ensures text == old(text)
    {
      selectedFont := selectedFontTemp;
      selectedColor := selectedColorTemp;
    }
  }
}
