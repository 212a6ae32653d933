/**
 * What a view hands back from a frame, and the default frame update every
 * view gets unless it overrides it: button b means "go back".
 */
module Views {
  import opened Wrappers
  import opened Buttons

  /** Views are opaque to the model; they are named by an id. */
  type ViewId = nat

  /** The outcome of a view's update: open another view, or go back with an
      optional text payload. The payload-less `Back` of the view interface is
      `Back(None)`. */
  datatype UpdateResult = NewView(view: ViewId) | Back(payload: Option<string>)

  /** The default update: a pending activation of b means "back"; only b's
      activation is read, and thereby cleared. */
  method DefaultUpdate(buttons: ButtonSet) returns (r: Option<UpdateResult>)
    requires buttons.Valid()
    modifies buttons, buttons.b
    ensures buttons.Valid()
    ensures r == (if B in old(buttons.pending) then Some(Back(None)) else None)
    ensures buttons.pending == old(buttons.pending) - {B}
    ensures buttons.tracking == old(buttons.tracking)
  {
    var pressed := buttons.WasPressed(B);
    if pressed {
      r := Some(Back(None));
    } else {
      r := None;
    }
  }

  /** Two default updates with no poll in between go back at most once. */
  method DefaultUpdateTwice(buttons: ButtonSet) returns (first: Option<UpdateResult>, second: Option<UpdateResult>)
    requires buttons.Valid()
    modifies buttons, buttons.b
    ensures buttons.Valid()
    ensures first.Some? <==> B in old(buttons.pending)
    ensures second == None
  {
    first := DefaultUpdate(buttons);
    second := DefaultUpdate(buttons);
  }

  /** The effect of an opaque view's update on the buttons: it reads (and so
      clears) the activations of the buttons in `consumed`, in the order of
      `AllIds`, and changes nothing else. `got` is the set of those reads
      that reported an activation. */
  method OpaqueUpdate(buttons: ButtonSet, consumed: set<ButtonId>) returns (got: set<ButtonId>)
    requires buttons.Valid()
    modifies buttons, buttons.Repr()
    ensures buttons.Valid()
    ensures got == consumed * old(buttons.pending)
    ensures buttons.pending == old(buttons.pending) - consumed
    ensures buttons.tracking == old(buttons.tracking)
  {
    ghost var done: set<ButtonId> := {};
    got := {};
    for k := 0 to |AllIds|
      invariant buttons.Valid()
      invariant got == done * old(buttons.pending)
      invariant done <= consumed
      invariant forall j :: 0 <= j < k && AllIds[j] in consumed ==> AllIds[j] in done
      invariant buttons.pending == old(buttons.pending) - done
      invariant buttons.tracking == old(buttons.tracking)
    {
      if AllIds[k] in consumed {
        var pressed := buttons.WasPressed(AllIds[k]);
        if pressed {
          got := got + {AllIds[k]};
        }
        done := done + {AllIds[k]};
      }
    }
    forall id | id in consumed ensures id in done {
      AllIdsComplete(id);
      var j :| 0 <= j < |AllIds| && AllIds[j] == id;
    }
    assert done == consumed;
  }
}
