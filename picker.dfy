/** The dropdown picker shared by the font and the colour dropdowns: one
    `expanded` flag. Tapping the control opens the menu; a dismiss closes it
    without a selection; choosing a menu item reports that item to the
    selection callback and closes the menu. The two dropdowns run the same
    code over different choice types, so it is written once, generically.

    A selection reported to the callback is called an emission here. */
module Picker {

  datatype Option<T> = None | Some(value: T)

  /** What the user can do to a picker. `Choose(item)` is a tap on a menu item. */
  datatype PickerEvent<T> = Tap | Dismiss | Choose(item: T)

  /** A picker's reaction to one event: its new `expanded` flag and what it
      reports to the selection callback, if anything. */
  datatype Reaction<T> = Reaction(expanded: bool, emitted: Option<T>)

  /** The final `expanded` flag after a sequence of events and every
      selection reported on the way, in order. */
  datatype Trace<T> = Trace(expanded: bool, emitted: seq<T>)

  /** The menu items exist only while the menu is expanded, so a Choose that
      finds the picker closed reaches no item and has no effect. */
  function PickerStep<T>(expanded: bool, e: PickerEvent<T>): Reaction<T>
  {
    match e
    case Tap => Reaction(true, None)
    case Dismiss => Reaction(false, None)
    case Choose(x) => if expanded then Reaction(false, Some(x)) else Reaction(false, None)
  }

  function Emit<T>(o: Option<T>): seq<T>
  {
    if o.Some? then [o.value] else []
  }

  /** The events are applied one at a time, oldest first. */
  function PickerRun<T>(expanded: bool, evs: seq<PickerEvent<T>>): Trace<T>
    decreases |evs|
  {
    if evs == [] then Trace(expanded, [])
    else
      var prev := PickerRun(expanded, evs[..|evs| - 1]);
      var r := PickerStep(prev.expanded, evs[|evs| - 1]);
      Trace(r.expanded, prev.emitted + Emit(r.emitted))
  }

  /** How many times the menu went from closed to open: the taps that found
      it closed. A tap on an open picker opens nothing new. */
  function Openings<T>(expanded: bool, evs: seq<PickerEvent<T>>): nat
    decreases |evs|
  {
    if evs == [] then 0
    else
      var init := evs[..|evs| - 1];
      Openings(expanded, init)
        + (if evs[|evs| - 1].Tap? && !PickerRun(expanded, init).expanded then 1 else 0)
  }

  /** Tapping opens; a dismiss closes and reports nothing; choosing an item on
      an open menu reports exactly that item and closes; a closed picker
      never reports anything. */
  lemma PickerStepCases<T>(expanded: bool, e: PickerEvent<T>)
    ensures e.Tap? ==> PickerStep(expanded, e) == Reaction(true, None)
    ensures e.Dismiss? ==> PickerStep(expanded, e) == Reaction(false, None)
    ensures e.Choose? && expanded ==> PickerStep(expanded, e) == Reaction(false, Some(e.item))
    ensures !expanded ==> PickerStep(expanded, e).emitted == None
    ensures PickerStep(expanded, e).emitted.Some? ==> !PickerStep(expanded, e).expanded
  {
  }

  /** At most one selection is reported per open/close cycle: the selections
      reported, plus one if the menu is still open, never exceed the number of
      openings (plus one if the menu started open). From the closed initial
      state, there are never more selections than openings. */
  lemma {:induction false} OncePerOpening<T>(expanded: bool, evs: seq<PickerEvent<T>>)
    ensures |PickerRun(expanded, evs).emitted| + (if PickerRun(expanded, evs).expanded then 1 else 0)
         <= Openings(expanded, evs) + (if expanded then 1 else 0)
    decreases |evs|
  {
    if evs != [] {
      OncePerOpening(expanded, evs[..|evs| - 1]);
    }
  }

  /** Every reported selection is the item of a Choose event. */
  lemma {:induction false} EmittedWereChosen<T>(expanded: bool, evs: seq<PickerEvent<T>>)
    ensures forall y :: y in PickerRun(expanded, evs).emitted ==> Choose(y) in evs
    decreases |evs|
  {
    if evs != [] {
      var n := |evs| - 1;
      EmittedWereChosen(expanded, evs[..n]);
      assert evs == evs[..n] + [evs[n]];
    }
  }

  /** A picker on screen: the `expanded` flag, the menu it lists (its choice
      type's members in declaration order) and, as ghost state, the events it
      has received. */
  class Dropdown<T> {
    const menu: seq<T>
    var expanded: bool
    ghost var history: seq<PickerEvent<T>>

    /** Every selection reported so far. */
    ghost function Emitted(): seq<T>
      reads this
    {
      PickerRun(false, history).emitted
    }

    /** The flag is the one the history leads to from the closed start; every
        reported selection is a menu item; at most one selection per opening. */
    ghost predicate Valid()
      reads this
    {
      && PickerRun(false, history).expanded == expanded
      && (forall y :: y in Emitted() ==> y in menu)
      && |Emitted()| + (if expanded then 1 else 0) <= Openings(false, history)
    }

    constructor (menu: seq<T>)
      ensures Valid() && this.menu == menu
      ensures !expanded && history == [] && Emitted() == []
    {
      this.menu := menu;
      expanded := false;
      history := [];
    }

    /** A tap on the control; it opens the menu whatever its state. */
    method Tap()
      requires Valid()
      modifies this
      ensures Valid() && expanded
      ensures history == old(history) + [PickerEvent.Tap]
      ensures Emitted() == old(Emitted())
    {
      expanded := true;
      history := history + [PickerEvent.Tap];
      assert history[..|history| - 1] == old(history);
      OncePerOpening(false, history);
    }

    /** The menu's dismiss request. */
    method Dismiss()
      requires Valid()
      modifies this
      ensures Valid() && !expanded
      ensures history == old(history) + [PickerEvent.Dismiss]
      ensures Emitted() == old(Emitted())
    {
      expanded := false;
      history := history + [PickerEvent.Dismiss];
      assert history[..|history| - 1] == old(history);
      OncePerOpening(false, history);
    }

    /** A tap on a menu item: the item is reported to the selection callback
        (returned here) and the menu closes. */
    method Select(item: T) returns (chosen: T)
      requires Valid() && expanded && item in menu
      modifies this
      ensures Valid() && !expanded
      ensures chosen == item
      ensures history == old(history) + [Choose(item)]
      ensures Emitted() == old(Emitted()) + [item]
    {
      chosen := item;
      expanded := false;
      history := history + [Choose(item)];
      assert history[..|history| - 1] == old(history);
      OncePerOpening(false, history);
    }
  }
}
