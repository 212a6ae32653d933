/**
 * The on-screen keyboard: a cursor on a grid of keys, two key layers that
 * button c switches between, and the text typed so far.
 */
module TextInputs {
  import opened Wrappers
  import opened Buttons
  import opened Views

  datatype Key = Letter(letter: char) | Submit | Cancel

  const ROWS: nat := 4
  const COLUMNS: nat := 12

  /** A layer: `ROWS` rows of `COLUMNS` keys each. */
  predicate IsGrid(layer: seq<seq<Key>>) {
    |layer| == ROWS && forall i :: 0 <= i < |layer| ==> |layer[i]| == COLUMNS
  }

  /** Only (2, 11) holds a key other than a letter, and it holds `special`. */
  predicate LettersExcept(layer: seq<seq<Key>>, special: Key)
    requires IsGrid(layer)
  {
    && layer[2][11] == special
    && forall i, j :: 0 <= i < ROWS && 0 <= j < COLUMNS && (i, j) != (2, 11) ==> layer[i][j].Letter?
  }

  /** A row of letter keys, one per character. */
  function Letters(s: string): (row: seq<Key>)
    ensures |row| == |s|
    ensures forall j :: 0 <= j < |s| ==> row[j] == Letter(s[j])
  {
    seq(|s|, j requires 0 <= j < |s| => Letter(s[j]))
  }

  function NormalLayer(): (layer: seq<seq<Key>>)
    ensures IsGrid(layer) && LettersExcept(layer, Submit)
  {
    [ Letters("1234567890-="),
      Letters("qwertyuiop[]"),
      Letters("asdfghjkl;'") + [Submit],
      Letters("zxcvbnm,./\\ ") ]
  }

  function ShiftLayer(): (layer: seq<seq<Key>>)
    ensures IsGrid(layer) && LettersExcept(layer, Cancel)
  {
    [ Letters("!@#$%^&*()_+"),
      Letters("QWERTYUIOP{}"),
      Letters("ASDFGHJKL:\"") + [Cancel],
      Letters("ZXCVBNM<>?| ") ]
  }

  /** The fields of the keyboard that an update changes. */
  datatype InputState = InputState(x: int, y: int, shifting: bool, text: string)

  predicate OnGrid(s: InputState) {
    0 <= s.x < COLUMNS && 0 <= s.y < ROWS
  }

  /** One step of a cursor coordinate back or forward on `size` positions,
      wrapping around at both ends. */
  function Back1(v: int, size: nat): int {
    if v - 1 < 0 then size - 1 else v - 1
  }
  function Forward1(v: int, size: nat): int
    requires size > 0
  {
    (v + 1) % size
  }

  /** The text after b: its last character removed, if there is one. */
  function Backspace(text: string, pressed: bool): string {
    if pressed && |text| > 0 then text[..|text| - 1] else text
  }

  /** The row after up (one back) and then down (one forward). */
  function MoveRow(layer: seq<seq<Key>>, y: int, pending: set<ButtonId>): int
    requires |layer| > 0
  {
    var y := if Up in pending then Back1(y, |layer|) else y;
    if Down in pending then Forward1(y, |layer|) else y
  }

  /** The column after left (one back) and then right (one forward), in `row`. */
  function MoveColumn(row: seq<Key>, x: int, pending: set<ButtonId>): int
    requires |row| > 0
  {
    var x := if Left in pending then Back1(x, |row|) else x;
    if Right in pending then Forward1(x, |row|) else x
  }

  /** Everything an update does before it looks at a: b, c and the cursor keys. */
  function Navigate(layer: seq<seq<Key>>, s: InputState, pending: set<ButtonId>): (r: InputState)
    requires IsGrid(layer) && OnGrid(s)
    ensures OnGrid(r)
  {
    var y := MoveRow(layer, s.y, pending);
    var x := MoveColumn(layer[y], s.x, pending);
    InputState(x, y, s.shifting != (C in pending), Backspace(s.text, B in pending))
  }

  /** One update of a keyboard in state `s` showing `layer`, given the buttons
      with a pending activation. Returns the new state and the view result. */
  function InputStep(layer: seq<seq<Key>>, s: InputState, pending: set<ButtonId>): (r: (InputState, Option<UpdateResult>))
    requires IsGrid(layer) && OnGrid(s)
    ensures OnGrid(r.0)
    ensures r.0.shifting == (s.shifting != (C in pending))
    ensures r.1.Some? ==> A in pending && r.1.value.Back?
    ensures A !in pending ==> r.1 == None
  {
    var next := Navigate(layer, s, pending);
    if A in pending then
      match layer[next.y][next.x]
      case Submit => (next, Some(Back(Some(next.text))))
      case Cancel => (next, Some(Back(None)))
      case Letter(l) => (next.(text := next.text + [l]), None)
    else (next, None)
  }

  // ---------------------------------------------------------------------
  // Properties of one update

  /** Up moves one row up, from the top row to the bottom one; down moves one
      row down, from the bottom row to the top one; left and right do the same
      on the columns. */
  lemma CursorWraps(layer: seq<seq<Key>>, s: InputState, pending: set<ButtonId>)
    requires IsGrid(layer) && OnGrid(s)
    ensures var r := InputStep(layer, s, pending).0;
      && (Up in pending && Down !in pending ==> r.y == if s.y == 0 then ROWS - 1 else s.y - 1)
      && (Down in pending && Up !in pending ==> r.y == if s.y == ROWS - 1 then 0 else s.y + 1)
      && ((Up in pending <==> Down in pending) ==> r.y == s.y)
  {
  }

  lemma CursorWrapsColumns(layer: seq<seq<Key>>, s: InputState, pending: set<ButtonId>)
    requires IsGrid(layer) && OnGrid(s)
    ensures var r := InputStep(layer, s, pending).0;
      && (Left in pending && Right !in pending ==> r.x == if s.x == 0 then COLUMNS - 1 else s.x - 1)
      && (Right in pending && Left !in pending ==> r.x == if s.x == COLUMNS - 1 then 0 else s.x + 1)
      && ((Left in pending <==> Right in pending) ==> r.x == s.x)
  {
  }

  /** Without a, only b touches the text: it deletes the last character and
      does nothing to an empty text. */
  lemma BackspaceDeletesLast(layer: seq<seq<Key>>, s: InputState, pending: set<ButtonId>)
    requires IsGrid(layer) && OnGrid(s)
    requires A !in pending
    ensures var r := InputStep(layer, s, pending).0;
      && (B in pending && s.text == [] ==> r.text == [])
      && (B in pending && s.text != [] ==> r.text + [s.text[|s.text| - 1]] == s.text)
      && (B !in pending ==> r.text == s.text)
  {
  }

  /** a on a letter types it and stays in the view; a on Submit goes back
      with the text as it is; a on Cancel goes back with no payload. The key
      is looked up in `layer`, the layer shown before c toggles it. */
  lemma PressA(layer: seq<seq<Key>>, s: InputState, pending: set<ButtonId>)
    requires IsGrid(layer) && OnGrid(s) && A in pending
    ensures var (r, result) := InputStep(layer, s, pending);
      var typed := InputStep(layer, s, pending - {A}).0;
      match layer[r.y][r.x]
      case Letter(l) => result == None && r == typed.(text := typed.text + [l])
      case Submit => result == Some(Back(Some(typed.text))) && r == typed
      case Cancel => result == Some(Back(None)) && r == typed
  {
  }

  // ---------------------------------------------------------------------
  // The keyboard view, updated in place

  class TextInput {
    const normal: seq<seq<Key>>
    const shift: seq<seq<Key>>
    var x: int
    var y: int
    var shifting: bool
    var text: string

    function State(): InputState
      reads this
    {
      InputState(x, y, shifting, text)
    }

    /** The layer on screen. */
    function Layer(): seq<seq<Key>>
      reads this
    {
      if shifting then shift else normal
    }

    ghost predicate Valid()
      reads this
    {
      IsGrid(normal) && IsGrid(shift) && OnGrid(State())
    }

    constructor ()
      ensures Valid()
      ensures normal == NormalLayer() && shift == ShiftLayer()
      ensures State() == InputState(0, 0, false, "")
    {
      normal := NormalLayer();
      shift := ShiftLayer();
      x, y := 0, 0;
      shifting := false;
      text := "";
    }

    /** b and c: the last character erased, the layer switched. */
    method EditStep(buttons: ButtonSet)
      requires buttons.Valid()
      modifies this, buttons, buttons.Repr()
      ensures buttons.Valid()
      ensures buttons.pending == old(buttons.pending) - {B, C}
      ensures buttons.tracking == old(buttons.tracking)
      ensures State() == old(State()).(text := Backspace(old(text), B in old(buttons.pending)),
                                       shifting := old(shifting) != (C in old(buttons.pending)))
    {
      var pressed := buttons.WasPressed(B);
      if pressed {
        if |text| > 0 {
          text := text[..|text| - 1];
        }
      }
      pressed := buttons.WasPressed(C);
      if pressed {
        shifting := !shifting;
      }
    }

    /** up and down: the cursor moved one row, wrapping around. */
    method RowStep(buttons: ButtonSet, layer: seq<seq<Key>>)
      requires buttons.Valid() && IsGrid(layer) && 0 <= y < ROWS
      modifies this, buttons, buttons.Repr()
      ensures buttons.Valid()
      ensures buttons.pending == old(buttons.pending) - {Up, Down}
      ensures buttons.tracking == old(buttons.tracking)
      ensures State() == old(State()).(y := MoveRow(layer, old(y), old(buttons.pending)))
    {
      var pressed := buttons.WasPressed(Up);
      if pressed {
        y := y - 1;
        if y < 0 { y := |layer| - 1; }
      }
      pressed := buttons.WasPressed(Down);
      if pressed {
        y := y + 1;
        y := y % |layer|;
      }
    }

    /** left and right: the cursor moved one column in `row`, wrapping around. */
    method ColumnStep(buttons: ButtonSet, row: seq<Key>)
      requires buttons.Valid() && |row| == COLUMNS && 0 <= x < COLUMNS
      modifies this, buttons, buttons.Repr()
      ensures buttons.Valid()
      ensures buttons.pending == old(buttons.pending) - {Left, Right}
      ensures buttons.tracking == old(buttons.tracking)
      ensures State() == old(State()).(x := MoveColumn(row, old(x), old(buttons.pending)))
    {
      var pressed := buttons.WasPressed(Left);
      if pressed {
        x := x - 1;
        if x < 0 { x := |row| - 1; }
      }
      pressed := buttons.WasPressed(Right);
      if pressed {
        x := x + 1;
        x := x % |row|;
      }
    }

    /** Reads the activation of every button, in the order b, c, up, down,
        left, right, a, and acts on them as `InputStep` says, on the layer that
        was shown when the update began. */
    method Update(buttons: ButtonSet) returns (r: Option<UpdateResult>)
      requires Valid() && buttons.Valid()
      modifies this, buttons, buttons.Repr()
      ensures buttons.Valid()
      ensures Valid()
      ensures (State(), r) == InputStep(old(Layer()), old(State()), old(buttons.pending))
      ensures buttons.pending == {}
      ensures buttons.tracking == old(buttons.tracking)
    {
      var layer := if shifting then shift else normal;
      ghost var s0 := State();
      ghost var pending := buttons.pending;
      EditStep(buttons);
      RowStep(buttons, layer);
      ColumnStep(buttons, layer[y]);
      ghost var next := Navigate(layer, s0, pending);
      assert State() == next;
      var pressed := buttons.WasPressed(A);
      if pressed {
        match layer[y][x]
        case Submit =>
          r := Some(Back(Some(text)));
        case Cancel =>
          r := Some(Back(None));
        case Letter(l) =>
          text := text + [l];
          r := None;
      } else {
        r := None;
      }
      forall id ensures id !in buttons.pending {
        match id
        case A => case B => case C => case Up => case Down => case Left => case Right =>
      }
    }
  }
}
