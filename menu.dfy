/**
 * The menu view: a list of entries, a selection that the cursor buttons
 * move, and a window of four rows that scrolls to keep the selection on
 * screen. Indices are unsigned machine words in the program; a subtraction
 * below zero is the `Underflow` outcome here.
 */
module Menus {
  import opened Wrappers
  import opened Buttons
  import opened Views

  /** An entry: a custom entry, a labelled link to a view, or a labelled
      action. Custom entries and actions are code the model does not see and
      are named by an id. */
  datatype MenuItem =
    | Custom(entry: nat)
    | TextToView(text: string, view: ViewId)
    | TextToFunc(text: string, func: nat)

  /** How an update ends: normally, with the entry that a activated if any,
      or by the subtraction below zero when the first row is computed. */
  datatype Outcome = Done(activated: Option<MenuItem>) | Underflow

  /** The number of rows the menu shows at once. */
  const ROWS_SHOWN: nat := 4

  /** The selection after down (to the next entry, from the last to the
      first) and then up (to the previous entry, from the first to the last). */
  function Moved(count: nat, sel: nat, pending: set<ButtonId>): (r: nat)
    requires sel < count
    ensures r < count
    ensures Down in pending && Up !in pending ==> r == if sel == count - 1 then 0 else sel + 1
    ensures Up in pending && Down !in pending ==> r == if sel == 0 then count - 1 else sel - 1
    ensures Up in pending && Down in pending ==> r == sel
    ensures Up !in pending && Down !in pending ==> r == sel
  {
    var sel := if Down in pending then (if sel == count - 1 then 0 else sel + 1) else sel;
    if Up in pending then (if sel == 0 then count - 1 else sel - 1) else sel
  }

  /** The selection after left (to the first entry) and then right (to the
      last entry). */
  function Jumped(count: nat, sel: nat, pending: set<ButtonId>): (r: nat)
    requires sel < count
    ensures r < count
    ensures Right in pending ==> r == count - 1
    ensures Left in pending && Right !in pending ==> r == 0
    ensures Left !in pending && Right !in pending ==> r == sel
  {
    var sel := if Left in pending then 0 else sel;
    if Right in pending then count - 1 else sel
  }

  /** The first row shown once `sel` is selected, the first row having been
      `first`; `None` when the computation goes below zero. */
  function Window(count: nat, sel: nat, first: nat): (r: Option<nat>)
    requires sel < count
    ensures r == None <==> sel == count - 1 && sel < ROWS_SHOWN - 1
    ensures r.Some? ==> r.value <= sel < r.value + ROWS_SHOWN
    // the last entry: shown on the bottom row
    ensures sel == count - 1 && sel >= ROWS_SHOWN - 1 ==> r == Some(sel - (ROWS_SHOWN - 1))
    // the first entry (not also the last): shown on the top row
    ensures sel == 0 < count - 1 ==> r == Some(0)
    // any other entry at or below the third row: moved to the third row
    ensures 0 < sel < count - 1 && sel >= first + 2 ==> r == Some(sel - 2)
    // any other entry at or above the top row: moved to the second row
    ensures 0 < sel < count - 1 && sel <= first ==> r == Some(sel - 1)
    // any other entry on the second row: the window stays
    ensures 0 < sel < count - 1 && first < sel < first + 2 ==> r == Some(first)
  {
    if sel == count - 1 then
      if sel >= 3 then Some(sel - 3) else None
    else if sel == 0 then Some(0)
    else if sel >= first + 2 then Some(sel - 2)
    else if sel <= first then Some(sel - 1)
    else Some(first)
  }

  /** A menu of fewer than four entries goes below zero on every update
      that ends on its last entry, such as one in which right is pressed. */
  lemma ShortMenuUnderflows(count: nat, sel: nat, first: nat, pending: set<ButtonId>)
    requires sel < count < ROWS_SHOWN && Right in pending
    ensures Window(count, Jumped(count, Moved(count, sel, pending), pending), first) == None
  {
  }

  /** Menus of four entries or more never go below zero. */
  lemma LongMenuScrolls(count: nat, sel: nat, first: nat)
    requires sel < count && ROWS_SHOWN <= count
    ensures Window(count, sel, first).Some?
  {
  }

  class Menu {
    var entries: seq<MenuItem>
    var title: string
    var selected: nat
    var firstShown: nat

    /** The selection is on an entry, or 0 in an empty menu. */
    ghost predicate Valid()
      reads this
    {
      selected < |entries| || selected == 0
    }

    constructor ()
      ensures Valid()
      ensures entries == [] && title == [] && selected == 0 && firstShown == 0
    {
      entries := [];
      title := [];
      selected := 0;
      firstShown := 0;
    }

    /** Replaces the title and hands the same menu back. */
    method Title(t: string) returns (m: Menu)
      modifies this
      ensures m == this
      ensures title == t
      ensures entries == old(entries) && selected == old(selected) && firstShown == old(firstShown)
    {
      title := t;
      m := this;
    }

    /** Appends an entry at the end. */
    method AddEntry(item: MenuItem)
      requires Valid()
      modifies this
      ensures Valid()
      ensures entries == old(entries) + [item]
      ensures title == old(title) && selected == old(selected) && firstShown == old(firstShown)
    {
      entries := entries + [item];
    }

    /** down and up. */
    method MoveStep(buttons: ButtonSet)
      requires buttons.Valid() && selected < |entries|
      modifies this, buttons, buttons.Repr()
      ensures buttons.Valid()
      ensures buttons.pending == old(buttons.pending) - {Down, Up}
      ensures buttons.tracking == old(buttons.tracking)
      ensures entries == old(entries) && title == old(title) && firstShown == old(firstShown)
      ensures selected == Moved(|entries|, old(selected), old(buttons.pending))
    {
      var pressed := buttons.WasPressed(Down);
      if pressed {
        if selected == |entries| - 1 {
          selected := 0;
        } else {
          selected := selected + 1;
        }
      }
      pressed := buttons.WasPressed(Up);
      if pressed {
        if selected == 0 {
          selected := |entries| - 1;
        } else {
          selected := selected - 1;
        }
      }
    }

    /** left and right. */
    method JumpStep(buttons: ButtonSet)
      requires buttons.Valid() && selected < |entries|
      modifies this, buttons, buttons.Repr()
      ensures buttons.Valid()
      ensures buttons.pending == old(buttons.pending) - {Left, Right}
      ensures buttons.tracking == old(buttons.tracking)
      ensures entries == old(entries) && title == old(title) && firstShown == old(firstShown)
      ensures selected == Jumped(|entries|, old(selected), old(buttons.pending))
    {
      var pressed := buttons.WasPressed(Left);
      if pressed {
        selected := 0;
      }
      pressed := buttons.WasPressed(Right);
      if pressed {
        selected := |entries| - 1;
      }
    }

    /** Moves the first row shown so that the selection stays on screen; the
        two loops walk it one row at a time. Reports `false`, leaving the
        first row as it was, when the last entry is selected and lies among
        the first three, where the subtraction goes below zero. */
    method ScrollStep() returns (ok: bool)
      requires selected < |entries|
      modifies this`firstShown
      ensures ok == Window(|entries|, selected, old(firstShown)).Some?
      ensures firstShown == if ok then Window(|entries|, selected, old(firstShown)).value else old(firstShown)
    {
      ok := true;
      if selected == |entries| - 1 {
        if selected < 3 {
          ok := false;
        } else {
          firstShown := selected - 3;
        }
      } else if selected == 0 {
        firstShown := 0;
      } else if selected >= firstShown + 2 {
        while firstShown < selected - 2
          invariant firstShown <= selected - 2
          decreases selected - firstShown
        {
          firstShown := firstShown + 1;
        }
      } else if selected <= firstShown {
        while firstShown > selected - 1
          invariant firstShown >= selected - 1
          decreases firstShown
        {
          firstShown := firstShown - 1;
        }
      }
    }

    /** One frame of the menu: down, up, left and right move the selection,
        the window scrolls to it, and a activates the selected entry, whose
        result is discarded. a is read only when the scroll step did not go
        below zero. */
    method Update(buttons: ButtonSet) returns (outcome: Outcome)
      requires Valid() && buttons.Valid() && |entries| > 0
      modifies this, buttons, buttons.Repr()
      ensures Valid() && buttons.Valid()
      ensures entries == old(entries) && title == old(title)
      ensures selected == Jumped(|entries|, Moved(|entries|, old(selected), old(buttons.pending)), old(buttons.pending))
      ensures outcome.Underflow? <==> Window(|entries|, selected, old(firstShown)) == None
      ensures outcome.Done? ==> firstShown == Window(|entries|, selected, old(firstShown)).value
      ensures outcome.Underflow? ==> firstShown == old(firstShown)
      ensures outcome.Done? ==> outcome.activated == if A in old(buttons.pending) then Some(entries[selected]) else None
      ensures buttons.pending == old(buttons.pending) - {Down, Up, Left, Right}
                                 - (if outcome.Done? then {A} else {})
      ensures buttons.tracking == old(buttons.tracking)
    {
      MoveStep(buttons);
      JumpStep(buttons);
      var ok := ScrollStep();
      if !ok {
        return Underflow;
      }
      var pressed := buttons.WasPressed(A);
      if pressed {
        return Done(Some(entries[selected]));
      }
      return Done(None);
    }
  }
}
