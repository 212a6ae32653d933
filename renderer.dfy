/**
 * The renderer: a list of views and the index of the one on screen. Each
 * frame polls the buttons, lets the current view update, and flushes the
 * activations no view read.
 */
module Rendering {
  import opened Wrappers
  import opened Buttons
  import opened Views

  class Renderer {
    var views: seq<ViewId>
    var current: nat

    /** Nothing ever moves the index away from 0: it starts there and is
        only ever reset to it. */
    ghost predicate Valid()
      reads this
    {
      current == 0
    }

    constructor ()
      ensures Valid()
      ensures views == [] && current == 0
    {
      views := [];
      current := 0;
    }

    /** Appends a view; which view is current does not change. */
    method AddView(view: ViewId)
      requires Valid()
      modifies this
      ensures Valid()
      ensures views == old(views) + [view]
      ensures current == old(current)
    {
      views := views + [view];
    }

    /** The view at index `i`, if there is one. */
    function ViewAt(i: nat): (v: Option<ViewId>)
      reads this
      ensures v.Some? <==> i < |views|
      ensures v.Some? ==> v.value == views[i]
    {
      if i < |views| then Some(views[i]) else None
    }

    /** The view a frame addresses: the current one when the index is in
        range, otherwise the first one, if any. */
    function Addressed(): (v: Option<ViewId>)
      reads this
      ensures v.Some? <==> |views| > 0
      ensures v.Some? ==> v.value in views
      ensures current < |views| ==> v == Some(views[current])
      ensures |views| > 0 && current >= |views| ==> v == Some(views[0])
    {
      if current < |views| then Some(views[current])
      else if |views| > 0 then Some(views[0])
      else None
    }

    /** Since the index stays 0, a frame always addresses the first view. */
    lemma FirstAddressed()
      requires Valid()
      ensures Addressed() == if |views| > 0 then Some(views[0]) else None
    {
    }

    /** Draws the addressed view, which is returned as `shown`. An index out
        of range falls back to 0. */
    method Render() returns (shown: Option<ViewId>)
      requires Valid()
      modifies this
      ensures Valid()
      ensures shown == old(Addressed())
      ensures views == old(views)
      ensures current == (if old(current) < |views| then old(current) else 0)
    {
      shown := ViewAt(current);
      if shown.None? {
        current := 0;
        shown := ViewAt(0);
      }
    }

    /** One frame of input: poll every button (pins `low` read low, clock at
        `now`), update the addressed view, then flush. The addressed view is
        returned as `updated`; its update reads the activations of `consumed`
        and its result is dropped. `got` is the set of those reads that
        reported an activation: the polled ones, since the flush comes after
        the view. */
    method Update(buttons: ButtonSet, low: set<ButtonId>, now: nat, consumed: set<ButtonId>)
      returns (updated: Option<ViewId>, got: set<ButtonId>)
      requires Valid()
      requires buttons.Valid()
      requires forall id :: id in low ==> id in buttons.States() && ClockNotBefore(buttons.States()[id], now)
      modifies this, buttons, buttons.Repr()
      ensures Valid()
      ensures buttons.Valid()
      ensures updated == old(Addressed())
      ensures views == old(views)
      ensures current == (if old(current) < |views| then old(current) else 0)
      ensures got == if updated.Some? then consumed * PendingIn(PolledAll(old(buttons.States()), low, now)) else {}
      ensures buttons.pending == {}
      ensures buttons.tracking == Tracking(PolledAll(old(buttons.States()), low, now))
    {
      buttons.PollAll(low, now);
      buttons.StatesParts();
      updated := ViewAt(current);
      if updated.None? {
        current := 0;
        updated := ViewAt(0);
      }
      got := {};
      if updated.Some? {
        got := OpaqueUpdate(buttons, consumed);
      }
      buttons.Flush();
    }
  }
}
