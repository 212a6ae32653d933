/**
 * The debounce/hold engine of one push button, and the fixed set of seven
 * buttons the views read.
 *
 * The pin read and the wall clock are parameters: `pinLow` is the level the
 * pin reads in this poll (the buttons are pulled up, so low means pushed) and
 * `now` is the clock in milliseconds, read once per poll.
 */
module Buttons {
  import opened Wrappers

  /** Milliseconds of continuous press after which a button counts as held. */
  const HOLD_DURATION: nat := 500
  /** Milliseconds between two repeat ticks. */
  const TICK_DURATION: nat := 300

  /** The remembered level. The naming is inverted: `High` means "pushed". */
  datatype Level = Low | High

  /** The five mutable fields of a button, as one value. */
  datatype ButtonState = ButtonState(
    lastState: Level,
    lastPressed: Option<nat>,
    lastTicked: Option<nat>,
    isHold: bool,
    hasBeenPressed: bool)

  /** The state a freshly created button starts in. */
  const Released := ButtonState(Low, None, None, false, false)

  /** Invariant kept from creation on: the remembered level is `High` exactly
      when a press time is stored, and a tick time is only stored during a press. */
  predicate Inv(s: ButtonState) {
    && (s.lastState == High <==> s.lastPressed.Some?)
    && (s.lastTicked.Some? ==> s.lastPressed.Some?)
  }

  /** No stored time stamp lies after `now`; otherwise measuring the time
      elapsed since it panics. */
  predicate ClockNotBefore(s: ButtonState, now: nat) {
    && (s.lastPressed.Some? ==> s.lastPressed.value <= now)
    && (s.lastTicked.Some? ==> s.lastTicked.value <= now)
  }

  // ---------------------------------------------------------------------
  // The poll, phase by phase (pin low)

  /** The press edge: a poll that sees the pin low while the button was released. */
  function PressPhase(s: ButtonState, now: nat): (r: ButtonState)
    ensures r.lastState == High
  {
    var s1 := if s.lastState == Low
              then s.(lastPressed := Some(now), hasBeenPressed := true, isHold := false)
              else s;
    s1.(lastState := High)
  }

  /** The hold check against the stored press time. */
  function HoldPhase(s: ButtonState, now: nat): (r: ButtonState)
    requires s.lastPressed.Some? ==> s.lastPressed.value <= now
  {
    match s.lastPressed
    case Some(t) =>
      if now - t >= HOLD_DURATION
      then s.(lastTicked := Some(now), hasBeenPressed := true, isHold := true)
      else s.(lastTicked := None)
    case None => s
  }

  /** The repeat-tick check against the stored tick time. */
  function TickPhase(s: ButtonState, now: nat): (r: ButtonState)
    requires s.lastTicked.Some? ==> s.lastTicked.value <= now
  {
    match s.lastTicked
    case Some(t) =>
      if now - t >= TICK_DURATION
      then s.(lastTicked := Some(now), hasBeenPressed := true, isHold := true)
      else s
    case None => s
  }

  /** One poll of a button whose pin reads `pinLow` at time `now`. */
  function PollStep(s: ButtonState, pinLow: bool, now: nat): (r: ButtonState)
    requires pinLow ==> ClockNotBefore(s, now)
    ensures ClockNotBefore(r, now)
    ensures r.lastState == (if pinLow then High else Low)
    ensures !pinLow ==> r == s.(lastState := Low, lastPressed := None, lastTicked := None)
    ensures s.hasBeenPressed ==> r.hasBeenPressed
  {
    if pinLow then TickPhase(HoldPhase(PressPhase(s, now), now), now)
    else s.(lastState := Low, lastTicked := None, lastPressed := None)
  }

  /** Reading the pending activation: it is returned and cleared. */
  function Consume(s: ButtonState): (r: (bool, ButtonState))
    ensures r.0 == s.hasBeenPressed
    ensures !r.1.hasBeenPressed
    ensures r.1.(hasBeenPressed := s.hasBeenPressed) == s
  {
    (s.hasBeenPressed, s.(hasBeenPressed := false))
  }

  // ---------------------------------------------------------------------
  // Properties of one poll

  lemma PollKeepsInv(s: ButtonState, pinLow: bool, now: nat)
    requires Inv(s) && (pinLow ==> ClockNotBefore(s, now))
    ensures Inv(PollStep(s, pinLow, now))
  {
  }

  /** The press edge records the press time, raises an activation, clears the
      hold flag and remembers the button as pushed. */
  lemma PressEdge(s: ButtonState, now: nat)
    requires Inv(s) && s.lastState == Low
    ensures var r := PollStep(s, true, now);
      && r.lastPressed == Some(now)
      && r.hasBeenPressed
      && !r.isHold
      && r.lastState == High
      && r.lastTicked == None
  {
  }

  /** Pushed for less than the hold duration: no tick is stored and no
      activation is raised beyond the one of the press edge. */
  lemma ShortPress(s: ButtonState, now: nat, t: nat)
    requires Inv(s) && s.lastState == High && s.lastPressed == Some(t) && ClockNotBefore(s, now)
    requires now - t < HOLD_DURATION
    ensures PollStep(s, true, now) == s.(lastTicked := None)
  {
  }

  /** Pushed for at least the hold duration: every poll marks the button held,
      raises an activation and stores a tick at `now`, because the press time
      is never advanced. */
  lemma LongPress(s: ButtonState, now: nat, t: nat)
    requires Inv(s) && s.lastState == High && s.lastPressed == Some(t) && ClockNotBefore(s, now)
    requires now - t >= HOLD_DURATION
    ensures PollStep(s, true, now) == s.(lastTicked := Some(now), isHold := true, hasBeenPressed := true)
  {
  }

  /** The repeat-tick check never changes anything: with one clock reading per
      poll, the hold check has just left the tick time absent or equal to `now`. */
  lemma TickPhaseInert(s: ButtonState, now: nat)
    requires Inv(s) && ClockNotBefore(s, now)
    ensures var h := HoldPhase(PressPhase(s, now), now);
      && (h.lastTicked == None || h.lastTicked == Some(now))
      && TickPhase(h, now) == h
  {
  }

  /** Releasing forgets both time stamps but neither the hold flag nor an
      activation nobody has read yet. */
  lemma Release(s: ButtonState)
    ensures var r := PollStep(s, false, 0);
      && r.lastState == Low && r.lastPressed == None && r.lastTicked == None
      && r.isHold == s.isHold && r.hasBeenPressed == s.hasBeenPressed
  {
  }

  /** Reading the activation twice with no poll in between yields it at most once. */
  lemma ConsumeAtMostOnce(s: ButtonState)
    ensures !(Consume(s).0 && Consume(Consume(s).1).0)
  {
  }

  // ---------------------------------------------------------------------
  // A press held over many frames

  predicate Sorted(times: seq<nat>) {
    forall i, j :: 0 <= i <= j < |times| ==> times[i] <= times[j]
  }

  /** What one view sees in each frame while the pin stays low: the button is
      polled at `times[k]` and its activation is then read. */
  function HeldFrames(s: ButtonState, times: seq<nat>): (seen: seq<bool>)
    requires Sorted(times)
    requires |times| > 0 ==> ClockNotBefore(s, times[0])
    ensures |seen| == |times|
    decreases |times|
  {
    if times == [] then []
    else
      var polled := PollStep(s, true, times[0]);
      var (pressed, next) := Consume(polled);
      [pressed] + HeldFrames(next, times[1..])
  }

  /** While pushed since `t`, a frame sees an activation exactly when the hold
      duration has elapsed since `t`. */
  lemma {:induction false} HeldSince(s: ButtonState, t: nat, times: seq<nat>)
    requires Inv(s) && s.lastState == High && s.lastPressed == Some(t) && !s.hasBeenPressed
    requires Sorted(times) && (|times| > 0 ==> ClockNotBefore(s, times[0]))
    ensures forall k :: 0 <= k < |times| ==>
      HeldFrames(s, times)[k] == (times[k] - t >= HOLD_DURATION)
    decreases |times|
  {
    if times != [] {
      var polled := PollStep(s, true, times[0]);
      if times[0] - t >= HOLD_DURATION {
        LongPress(s, times[0], t);
      } else {
        ShortPress(s, times[0], t);
      }
      var next := Consume(polled).1;
      assert Sorted(times[1..]);
      HeldSince(next, t, times[1..]);
      forall k | 0 < k < |times|
        ensures HeldFrames(s, times)[k] == (times[k] - t >= HOLD_DURATION)
      {
        assert HeldFrames(s, times)[k] == HeldFrames(next, times[1..])[k - 1];
      }
    }
  }

  /** A press from the released state, held over sorted frame times: the first
      frame sees the press edge, and from then on a frame sees an activation
      exactly when at least the hold duration has passed since the first frame.
      So a held button fires in every frame after the threshold, not at a
      repeat cadence. */
  lemma {:induction false} HoldFiresEveryFrame(s: ButtonState, times: seq<nat>)
    requires Inv(s) && s.lastState == Low
    requires |times| > 0 && Sorted(times)
    ensures forall k :: 0 <= k < |times| ==>
      HeldFrames(s, times)[k] == (k == 0 || times[k] - times[0] >= HOLD_DURATION)
  {
    PressEdge(s, times[0]);
    var next := Consume(PollStep(s, true, times[0])).1;
    assert Sorted(times[1..]);
    HeldSince(next, times[0], times[1..]);
    forall k | 0 < k < |times|
      ensures HeldFrames(s, times)[k] == (times[k] - times[0] >= HOLD_DURATION)
    {
      assert HeldFrames(s, times)[k] == HeldFrames(next, times[1..])[k - 1];
    }
  }

  // ---------------------------------------------------------------------
  // One button, updated in place

  class Button {
    var lastState: Level
    var lastPressed: Option<nat>
    var lastTicked: Option<nat>
    var isHold: bool
    var hasBeenPressed: bool

    function State(): ButtonState
      reads this
    {
      ButtonState(lastState, lastPressed, lastTicked, isHold, hasBeenPressed)
    }

    constructor ()
      ensures State() == Released && Inv(State())
    {
      lastState := Low;
      lastPressed := None;
      lastTicked := None;
      isHold := false;
      hasBeenPressed := false;
    }

    method Poll(pinLow: bool, now: nat)
      requires pinLow ==> ClockNotBefore(State(), now)
      modifies this
      ensures State() == PollStep(old(State()), pinLow, now)
    {
      if pinLow {
        if lastState == Low {
          lastPressed := Some(now);
          hasBeenPressed := true;
          isHold := false;
        }
        lastState := High;
        match lastPressed {
          case Some(t) =>
            if now - t >= HOLD_DURATION {
              lastTicked := Some(now);
              hasBeenPressed := true;
              isHold := true;
            } else {
              lastTicked := None;
            }
          case None =>
        }
        match lastTicked {
          case Some(t) =>
            if now - t >= TICK_DURATION {
              lastTicked := Some(now);
              hasBeenPressed := true;
              isHold := true;
            }
          case None =>
        }
      } else {
        lastState := Low;
        lastTicked := None;
        lastPressed := None;
      }
    }

    method WasPressed() returns (pressed: bool)
      modifies this
      ensures (pressed, State()) == Consume(old(State()))
    {
      if hasBeenPressed {
        hasBeenPressed := false;
        return true;
      } else {
        return false;
      }
    }

    function IsHeld(): bool
      reads this
    {
      isHold
    }
  }

  // ---------------------------------------------------------------------
  // The seven buttons

  datatype ButtonId = A | B | C | Up | Down | Left | Right

  /** The buttons in the order the set lists them. */
  const AllIds: seq<ButtonId> := [A, B, C, Up, Down, Left, Right]

  lemma AllIdsComplete(id: ButtonId)
    ensures id in AllIds
  {
  }

  lemma EveryIdListed()
    ensures forall id: ButtonId :: id in AllIds
  {
    forall id: ButtonId ensures id in AllIds { AllIdsComplete(id); }
  }

  /** The states of the seven buttons, by name. */
  type Panel = map<ButtonId, ButtonState>

  predicate Complete(m: Panel) {
    forall id: ButtonId :: id in m
  }

  /** The buttons of `m` with an activation nobody has read yet. */
  function PendingIn(m: Panel): (p: set<ButtonId>)
    ensures forall id :: id in p <==> id in m && m[id].hasBeenPressed
  {
    set id | id in m && m[id].hasBeenPressed
  }

  /** Every button polled once, with its own pin level and the same clock reading. */
  function PolledAll(m: Panel, low: set<ButtonId>, now: nat): (r: Panel)
    requires forall id :: id in low && id in m ==> ClockNotBefore(m[id], now)
    ensures r.Keys == m.Keys
    ensures forall id :: id in m ==> r[id] == PollStep(m[id], id in low, now)
  {
    map id | id in m :: PollStep(m[id], id in low, now)
  }

  /** The activations of the buttons in `ids` read and so cleared; nothing
      else changed. */
  function Cleared(m: Panel, ids: set<ButtonId>): (r: Panel)
    ensures r.Keys == m.Keys
    ensures forall id :: id in m ==> r[id] == (if id in ids then Consume(m[id]).1 else m[id])
  {
    map id | id in m :: if id in ids then Consume(m[id]).1 else m[id]
  }

  /** Every button as a fresh one starts. */
  function AllReleased(): (m: Panel)
    ensures Complete(m) && forall id :: m[id] == Released
  {
    EveryIdListed();
    map id | id in AllIds :: Released
  }

  /** The set of all seven buttons. */
  const Everyone: set<ButtonId> := set id | id in AllIds

  lemma ClearedTwice(m: Panel, ids: set<ButtonId>, more: set<ButtonId>)
    ensures Cleared(Cleared(m, ids), more) == Cleared(m, ids + more)
  {
  }

  lemma PendingCleared(m: Panel, ids: set<ButtonId>)
    ensures PendingIn(Cleared(m, ids)) == PendingIn(m) - ids
  {
  }

  /** Everything the buttons of `m` remember except their pending activations. */
  function Tracking(m: Panel): (r: Panel)
    ensures r.Keys == m.Keys && PendingIn(r) == {}
  {
    EveryIdListed();
    PendingCleared(m, Everyone);
    Cleared(m, Everyone)
  }

  /** The panel whose activations are `p` and whose buttons otherwise
      remember what `t` says. */
  function Join(p: set<ButtonId>, t: Panel): (m: Panel)
    ensures m.Keys == t.Keys
    ensures forall id :: id in m ==> m[id] == t[id].(hasBeenPressed := id in p)
  {
    map id | id in t :: t[id].(hasBeenPressed := id in p)
  }

  /** A panel is put back together from its pending activations and the rest. */
  lemma SplitJoin(m: Panel)
    requires Complete(m)
    ensures Join(PendingIn(m), Tracking(m)) == m
  {
  }

  /** A complete panel, split into its pending activations and the rest. */
  lemma Split(m: Panel)
    requires Complete(m)
    ensures forall id :: Tracking(m)[id] == m[id].(hasBeenPressed := false)
    ensures forall id :: id in PendingIn(m) <==> m[id].hasBeenPressed
  {
  }

  /** Reading activations changes nothing but the activations. */
  lemma ReadKeepsTracking(m: Panel, ids: set<ButtonId>)
    ensures Tracking(Cleared(m, ids)) == Tracking(m)
  {
  }

  /** A panel is determined by its pending activations and by everything
      else its buttons remember. */
  lemma PanelDetermined(m: Panel, m': Panel)
    requires Complete(m) && Complete(m')
    requires PendingIn(m) == PendingIn(m') && Tracking(m) == Tracking(m')
    ensures m == m'
  {
  }

  class ButtonSet {
    const a: Button
    const b: Button
    const c: Button
    const up: Button
    const down: Button
    const left: Button
    const right: Button

    /** The buttons with an activation nobody has read yet. */
    ghost var pending: set<ButtonId>
    /** Everything else the buttons remember, with no activation pending. */
    ghost var tracking: Panel

    /** The seven buttons are seven distinct objects. */
    predicate Wired() {
      && a != b && a != c && a != up && a != down && a != left && a != right
      && b != c && b != up && b != down && b != left && b != right
      && c != up && c != down && c != left && c != right
      && up != down && up != left && up != right
      && down != left && down != right
      && left != right
    }

    /** The buttons are wired up, and `pending` and `tracking` together hold
        their states. */
    ghost predicate Valid()
      reads this, Repr()
    {
      && Wired()
      && Complete(tracking)
      && forall id :: Mirrors(id)
    }

    /** `pending` and `tracking` hold the state of the button `id`. */
    ghost predicate Mirrors(id: ButtonId)
      reads this, Get(id)
    {
      && id in tracking
      && !tracking[id].hasBeenPressed
      && Get(id).State() == tracking[id].(hasBeenPressed := id in pending)
    }

    ghost function Repr(): set<object> {
      {a, b, c, up, down, left, right}
    }

    function Get(id: ButtonId): (btn: Button)
      ensures btn in Repr()
    {
      match id
      case A => a
      case B => b
      case C => c
      case Up => up
      case Down => down
      case Left => left
      case Right => right
    }

    /** The states of the seven buttons. */
    ghost function States(): Panel
      reads this
    {
      Join(pending, tracking)
    }

    lemma StatesParts()
      requires Valid()
      ensures Complete(States())
      ensures forall id :: States()[id] == Get(id).State()
      ensures PendingIn(States()) == pending
      ensures Tracking(States()) == tracking
    {
      forall id ensures Mirrors(id) && id in States() { }
      EveryIdListed();
      assert Cleared(States(), Everyone) == tracking;
    }

    /** The set as `default_pins` wires it up, pins left out: seven distinct
        buttons, in the order of `AllIds`, each as a fresh button starts. */
    constructor (bs: seq<Button>)
      requires |bs| == |AllIds|
      requires forall i, j :: 0 <= i < j < |bs| ==> bs[i] != bs[j]
      requires forall i :: 0 <= i < |bs| ==> bs[i].State() == Released
      ensures Valid() && Repr() == set i | 0 <= i < |bs| :: bs[i]
      ensures forall k :: 0 <= k < |bs| ==> Get(AllIds[k]) == bs[k]
      ensures pending == {}
      ensures forall id :: tracking[id] == Released
    {
      a, b, c, up, down, left, right := bs[0], bs[1], bs[2], bs[3], bs[4], bs[5], bs[6];
      pending := {};
      tracking := AllReleased();
      new;
      forall id ensures Mirrors(id) { }
    }

    /** The buttons one by one, in the order of `AllIds`, each exactly once. */
    function AllButtons(): (bs: seq<Button>)
      requires Wired()
      ensures |bs| == |AllIds|
      ensures forall k :: 0 <= k < |bs| ==> bs[k] == Get(AllIds[k])
      ensures forall j, k :: 0 <= j < k < |bs| ==> bs[j] != bs[k]
    {
      [a, b, c, up, down, left, right]
    }

    lemma Distinct(i: ButtonId, j: ButtonId)
      requires Wired() && i != j
      ensures Get(i) != Get(j)
    {
    }

    /** The activation of one button read, as a view does with
        `buttons.<name>.was_pressed()`. */
    method WasPressed(id: ButtonId) returns (pressed: bool)
      requires Valid()
      modifies this, Get(id)
      ensures Valid()
      ensures pressed == (id in old(pending))
      ensures pending == old(pending) - {id}
      ensures tracking == old(tracking)
    {
      assert Mirrors(id);
      pressed := Get(id).WasPressed();
      pending := pending - {id};
      forall j ensures Mirrors(j) {
        assert old(Mirrors(j));
        if j != id { Distinct(j, id); }
      }
    }

    /** Polls every button once, in the order of `AllIds`, each with its own
        pin level and the same clock reading. */
    method PollAll(low: set<ButtonId>, now: nat)
      requires Valid()
      requires forall id :: id in low ==> id in States() && ClockNotBefore(States()[id], now)
      modifies this, Repr()
      ensures Valid()
      ensures States() == PolledAll(old(States()), low, now)
    {
      ghost var start := States();
      forall id ensures Mirrors(id) && (id in low ==> ClockNotBefore(start[id], now)) { }
      PollEach(low, now);
      ghost var polled := PolledAll(start, low, now);
      pending := PendingIn(polled);
      tracking := Tracking(polled);
      Split(polled);
      SplitJoin(polled);
      forall id ensures Mirrors(id) { }
    }

    /** The loop of `PollAll`, on the buttons themselves. */
    method PollEach(low: set<ButtonId>, now: nat)
      requires Wired()
      requires forall id :: id in low ==> ClockNotBefore(Get(id).State(), now)
      modifies Repr()
      ensures forall id :: Get(id).State() == PollStep(old(Get(id).State()), id in low, now)
    {
      var bs := AllButtons();
      for k := 0 to |bs|
        invariant forall j :: 0 <= j < |AllIds| ==>
          Get(AllIds[j]).State() ==
            if j < k then PollStep(old(Get(AllIds[j]).State()), AllIds[j] in low, now)
            else old(Get(AllIds[j]).State())
      {
        bs[k].Poll(AllIds[k] in low, now);
      }
      forall id ensures Get(id).State() == PollStep(old(Get(id).State()), id in low, now) {
        AllIdsComplete(id);
        var j :| 0 <= j < |AllIds| && AllIds[j] == id;
      }
    }

    /** Reads and thereby clears the activation of every button, in the order
        of `AllIds`. */
    method Flush()
      requires Valid()
      modifies this, Repr()
      ensures Valid()
      ensures pending == {}
      ensures tracking == old(tracking)
    {
      forall id ensures Mirrors(id) { }
      var bs := AllButtons();
      for k := 0 to |bs|
        invariant pending == old(pending) && tracking == old(tracking)
        invariant forall j :: 0 <= j < |AllIds| ==>
          if j < k then Get(AllIds[j]).State() == tracking[AllIds[j]]
          else Mirrors(AllIds[j])
      {
        var _ := bs[k].WasPressed();
      }
      pending := {};
      forall id ensures Mirrors(id) {
        AllIdsComplete(id);
      }
    }
  }
}
