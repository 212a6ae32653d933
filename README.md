# tinygui in Dafny

A model of the input and navigation core of tinygui, a small GUI toolkit for a
monochrome screen driven by seven GPIO push buttons (a, b, c, up, down, left,
right). The model covers:

- **Buttons** (`buttons.dfy`). This is the debounce/hold engine of one button:
  a press edge, a hold after 500 ms, a repeat tick, and a release. It also
  covers the one-shot "was pressed" activation and the set of seven buttons
  with its poll-all and flush.
  - `Button` is a class with the five state fields of the Rust struct. Its `Poll`
    and `WasPressed` are proved against the pure functions `PollStep` and
    `Consume`.
  - `ButtonSet` holds seven distinct buttons. Two ghost fields describe its
    state: `pending`, the buttons with an unread activation, and `tracking`,
    everything else the buttons remember.
- **Views** (`view.dfy`). This covers the result of a view's update and the
  default update, where button b means "back".
- **Renderer** (`renderer.dfy`). This covers the list of views, the current
  index with its fall-back to 0, and the frame update: poll all, update the
  addressed view, flush.
- **Text input** (`input.dfy`). This is the on-screen keyboard.
  - It has two 4×12 key layers, a wrapping cursor, backspace on b, and a
    layer switch on c.
  - Pressing a types a letter, submits the text or cancels.
  - `InputStep` is the pure specification of one update, and
    `TextInput.Update` is proved against it.
- **Menu** (`menu.dfy`). This covers selection moves on up and down,
  wrapping at both ends, and jumps to the first or last entry on left and
  right. It also covers the four-row scroll window and activation on a.
  - The unsigned subtraction `selected - 3` at line 88 of `src/views/menu.rs`
    is modelled explicitly.
  - It goes below zero when the last entry is selected and that entry is one
    of the first three.
  - Such an update ends in the `Underflow` outcome.
- **Bitmap** (`bitmap.dfy`). This covers the by-value builder: `new`,
  `invert` (the bitwise complement of every byte) and `at`.

The pins and the clock are parameters.
- `low` is the set of buttons whose pin reads low in a poll. The buttons are
  pulled up, so low means pushed.
- `now` is the clock in milliseconds, read once per poll.

A held button fires on every poll once 500 ms have passed since the press
edge. The `TICK_DURATION` constant (src/buttons.rs:5) and the tick branch
(src/buttons.rs:52-61) aim at a repeat every 300 ms instead, but the code
never advances the stored press time. So the hold check re-fires on every
poll and leaves the tick time equal to the current clock. As a result, the
repeat-tick check can never fire.
- The model follows the code.
- `Buttons.TickPhaseInert` and `Buttons.HoldFiresEveryFrame` state this
  behaviour.

## Model

| member | source | states |
|---|---|---|
| Buttons.PollStep | src/buttons.rs:32-67 | one poll: the remembered level follows the pin; a release forgets both time stamps and keeps everything else; an unread activation is never lost; no stored time stamp lies after the clock |
| Buttons.Consume | src/buttons.rs:71-78 | reading returns the pending activation and clears it, changing nothing else |
| Buttons.PollKeepsInv | src/buttons.rs:32-67 | a poll keeps "level pushed exactly when a press time is stored, tick time only during a press" |
| Buttons.PressEdge | src/buttons.rs:33-39 | the first low poll after a release stores the press time, raises an activation, clears the hold flag and stores no tick |
| Buttons.ShortPress | src/buttons.rs:40-51 | while pushed for less than 500 ms a poll changes nothing but clearing the tick time |
| Buttons.LongPress | src/buttons.rs:40-51 | once pushed for 500 ms or more every poll marks the button held, raises an activation and stores a tick at the current clock |
| Buttons.TickPhaseInert | src/buttons.rs:40-61 | after the hold check the tick time is absent or equal to the clock, so the repeat-tick check never changes the state |
| Buttons.Release | src/buttons.rs:62-66 | a high pin forgets both time stamps but keeps the hold flag and an unread activation |
| Buttons.ConsumeAtMostOnce | src/buttons.rs:71-78 | two reads with no poll in between report the activation at most once |
| Buttons.HeldFrames | src/buttons.rs:32-78 | the activations a view reads in successive frames while the pin stays low, one per frame |
| Buttons.HeldSince | src/buttons.rs:40-61 | while pushed since t, a frame sees an activation exactly when at least 500 ms have passed since t |
| Buttons.HoldFiresEveryFrame | src/buttons.rs:32-61 | a press held over sorted frame times fires in the first frame, then in exactly those frames at least 500 ms after it |
| Buttons.Button.constructor | src/buttons.rs:19-28 | a new button is released: level low, no time stamps, not held, nothing pending |
| Buttons.Button.Poll | src/buttons.rs:32-67 | the fields after a poll are `PollStep` of the fields before |
| Buttons.Button.WasPressed | src/buttons.rs:71-78 | returns and clears the pending activation, as `Consume` says |
| Buttons.PolledAll | src/buttons.rs:95-103 | every button polled once with its own pin level and the same clock |
| Buttons.ClearedTwice | src/buttons.rs:136-140 | reading one set of activations and then another is reading their union |
| Buttons.PendingCleared | src/buttons.rs:71-78 | reading the activations of some buttons removes exactly those from the pending set |
| Buttons.Tracking | src/buttons.rs:84-92 | what the buttons remember besides activations, with none pending |
| Buttons.SplitJoin | src/buttons.rs:84-92 | a panel is rebuilt exactly from its pending set and the rest |
| Buttons.ReadKeepsTracking | src/buttons.rs:71-78 | reading activations changes nothing the buttons remember besides the activations |
| Buttons.PanelDetermined | src/buttons.rs:84-92 | two panels with the same pending set and the same remaining state are equal |
| Buttons.ButtonSet.StatesParts | src/buttons.rs:84-92 | the ghost `pending` and `tracking` fields are exactly the pending set and remaining state of the seven buttons |
| Buttons.ButtonSet.constructor | src/buttons.rs:124-134 | seven distinct released buttons, the k-th given one wired as the k-th of a, b, c, up, down, left, right; nothing pending |
| Buttons.ButtonSet.AllButtons | src/buttons.rs:105-115 | the seven buttons in the set's order, each exactly once |
| Buttons.ButtonSet.WasPressed | src/buttons.rs:71-78 | reading one button's activation returns whether it was pending and clears only that one |
| Buttons.ButtonSet.PollAll | src/buttons.rs:95-103 | the seven states afterwards are `PolledAll` of the states before |
| Buttons.ButtonSet.PollEach | src/buttons.rs:95-103 | each button polled once with its own pin level |
| Buttons.ButtonSet.Flush | src/buttons.rs:136-140 | afterwards nothing is pending and nothing else the buttons remember has changed |
| Views.DefaultUpdate | src/view.rs:10-16 | returns `Back` exactly when b's activation was pending; only b's activation is read |
| Views.DefaultUpdateTwice | src/view.rs:10-16 | two default updates with no poll in between go back at most once |
| Views.OpaqueUpdate | src/renderer.rs:36-44 | an opaque view's update reports and clears exactly the pending activations among those it reads, and changes nothing else |
| Rendering.Renderer.constructor | src/renderer.rs:11-16 | no views, index 0, which no operation ever changes |
| Rendering.Renderer.AddView | src/renderer.rs:18-20 | appends the view; the index stays 0 |
| Rendering.Renderer.Addressed | src/renderer.rs:22-32 | the view a frame addresses: the current one when the index is in range, else the first, and none exactly when there are no views |
| Rendering.Renderer.FirstAddressed | src/renderer.rs:22-32 | with the index at 0, a frame addresses the first view, or none when there are no views |
| Rendering.Renderer.Render | src/renderer.rs:22-32 | draws the addressed view; an index out of range is reset to 0; the index stays 0 |
| Rendering.Renderer.Update | src/renderer.rs:34-46 | in this order: polls all buttons, updates the addressed view, which gets exactly the polled activations among those it reads (none without a view), then flushes: nothing stays pending, the rest of the polled state is kept, the index stays 0 |
| TextInputs.NormalLayer | src/views/input.rs:36-41 | the unshifted layer is 4 rows of 12 keys, all letters except Submit at row 2, column 11 |
| TextInputs.ShiftLayer | src/views/input.rs:42-47 | the shifted layer is 4 rows of 12 keys, all letters except Cancel at row 2, column 11 |
| TextInputs.Navigate | src/views/input.rs:107-130 | b, c and the cursor keys keep the cursor on the grid |
| TextInputs.InputStep | src/views/input.rs:102-142 | one update keeps the cursor on the grid, toggles the layer exactly when c was pending, and returns a result only when a was pending, always a `Back` |
| TextInputs.CursorWraps | src/views/input.rs:115-122 | up moves one row up and wraps from the top to the bottom; down moves one row down and wraps from the bottom to the top; both or neither leave the row |
| TextInputs.CursorWrapsColumns | src/views/input.rs:123-130 | the same for left and right on the columns |
| TextInputs.BackspaceDeletesLast | src/views/input.rs:107-141 | without a, b removes exactly the last character and leaves an empty text empty, and without b the text is unchanged |
| TextInputs.PressA | src/views/input.rs:131-140 | a on a letter appends it and stays; on Submit goes back with the text; on Cancel goes back with no payload; the key is looked up in the layer shown before c toggles |
| TextInputs.TextInput.constructor | src/views/input.rs:34-52 | the two layouts, cursor at (0, 0), unshifted, empty text |
| TextInputs.TextInput.EditStep | src/views/input.rs:107-114 | b erases the last character and c toggles the layer |
| TextInputs.TextInput.RowStep | src/views/input.rs:115-122 | up then down move the row with wrap-around |
| TextInputs.TextInput.ColumnStep | src/views/input.rs:123-130 | left then right move the column with wrap-around, in the current row |
| TextInputs.TextInput.Update | src/views/input.rs:102-142 | the new state and result are `InputStep` of the old state, the layer shown at the start and the pending activations; all seven activations are read |
| Menus.Moved | src/views/menu.rs:62-76 | down selects the next entry, wrapping from the last to the first; up selects the previous one, wrapping from the first to the last; the selection stays on an entry |
| Menus.Jumped | src/views/menu.rs:79-85 | right selects the last entry; left alone selects the first; neither keeps the selection |
| Menus.Window | src/views/menu.rs:87-99 | the first row shown keeps the selection among the four rows on screen; none exactly when the last entry is selected and lies among the first three; otherwise the last entry goes to the bottom row, the first entry to the top row, any other entry at or below the third row to the third row, any other at or above the top row to the second row, and one on the second row leaves the window where it was |
| Menus.ShortMenuUnderflows | src/views/menu.rs:83-88 | in a menu of fewer than four entries, an update with right pending always goes below zero |
| Menus.LongMenuScrolls | src/views/menu.rs:87-99 | in a menu of four entries or more the scroll step never goes below zero |
| Menus.Menu.constructor | src/views/menu.rs:40-47 | no entries, empty title, selection and first row 0 |
| Menus.Menu.Title | src/views/menu.rs:49-52 | replaces the title and hands the same menu back |
| Menus.Menu.AddEntry | src/views/menu.rs:54-56 | appends the entry; nothing else changes |
| Menus.Menu.MoveStep | src/views/menu.rs:62-76 | the selection after down and up is `Moved` |
| Menus.Menu.JumpStep | src/views/menu.rs:79-85 | the selection after left and right is `Jumped` |
| Menus.Menu.ScrollStep | src/views/menu.rs:87-99 | the two loops leave the first row at `Window`; it fails without change when that goes below zero |
| Menus.Menu.Update | src/views/menu.rs:60-113 | covers the new selection and first row; the outcome is `Underflow` exactly when the scroll step goes below zero; otherwise the selected entry is activated exactly when a was pending; it lists the activations that are read |
| Bitmaps.New | src/shape/bitmap.rs:13-19 | the given image and size, placed at (0, 0) |
| Bitmaps.Invert | src/shape/bitmap.rs:21-26 | with `invert` every byte b becomes 255 - b, without it the bitmap is unchanged; position and size are kept |
| Bitmaps.At | src/shape/bitmap.rs:28 | moves the bitmap; size and image are kept |
| Bitmaps.InvertTwice | src/shape/bitmap.rs:21-26 | inverting twice gives back the original |
| Bitmaps.InvertChangesEveryByte | src/shape/bitmap.rs:21-26 | inverting changes every byte |
| Bitmaps.AtInvertCommute | src/shape/bitmap.rs:21-28 | moving and inverting commute |

## Left out

- The drawing side is not part of this model:
  - The screen, every `render`/`draw` body, the shapes other than the bitmap,
    and the GUI run loop in `src/lib.rs`. These produce pixels only.
  - The boids and hello-world demo views, and `src/main.rs`. These are
    demonstrations that use no button logic of their own.
- GPIO access is left out. `get_button` and the pin numbers of `default_pins`
  are hardware setup. The `Buttons.ButtonSet.constructor` takes seven fresh
  buttons in their place, and each pin read is the `low` parameter.
- Each poll reads the pin once. The `else if is_high` branch of `poll` is
  read as the complement of `is_low`.
- Each poll reads the clock once. Within one poll the source reads it up to
  five times. With a single reading, the tick check cannot fire; see
  `Buttons.TickPhaseInert`.
- The model has no panic for a clock that runs backwards. Instead,
  `Buttons.Button.Poll` requires that no stored time stamp lies after the
  clock.
- Buttons.Button.IsHeld is a plain read of the hold flag and has no
  contract.
- Buttons.ButtonSet.PollAll polls through a loop over the buttons in the
  set's order. The source uses seven explicit calls, and the result is the
  same. `Buttons.ButtonSet.WasPressed(id)` stands for
  `buttons.<name>.was_pressed()`.
- Views are opaque ids. The menu's custom entries and actions are opaque ids
  too, since their code is closures and trait objects.
  - An activated entry is returned, not run.
  - A view's update inside the renderer is the set of activations it reads
    (`Views.OpaqueUpdate`). Its result is discarded, as in the source.
- The `UpdateResult` of `src/view.rs` has a `Back` with no payload, while the
  text input builds `Back` with a boxed text result. The model reads both as
  `Back(Option<string>)`: a payload-less `Back` is `Back(None)`.
  - The `ViewResult`/`Any` payload boxing, `TextResult` and the view spawner
    are not part of this model.
- Menus.Menu.Update: the menu's update in the source returns nothing. The
  model returns an `Outcome`, which carries the activated entry or
  `Underflow`.
- Menus.Menu.Update requires a non-empty menu. On an empty menu,
  `entries.len() - 1` goes below zero in the source. The model does not cover
  that case.
- Menus.Menu.Update models the unsigned subtraction at line 88 as the debug
  build's panic: the update stops there, and a is not read. The release
  build's wrap-around is not modelled.
- The machine widths are not modelled: `i32` and `usize` values are
  unbounded integers. The cursor values stay in range, so nothing else can
  overflow. Text is a sequence of characters. The Rust byte length and `pop`
  agree with it on emptiness and on removing the last character.
- The text field `string` of the text input is named `text` in the model.
