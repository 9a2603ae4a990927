/** Which key presses toggle Chinese and English: a lone tap of Shift or of Ctrl, or the Ctrl+Alt+Space chord. */
module ModeToggle {

  datatype Name = ShiftKey | CtrlKey | SpaceKey | AnyOther(keyval: int)
  datatype Modifier = ShiftMask | ControlMask | Mod1 | Mod4 | SuperMask | MetaMask | OtherMask(bit: int)

  /** One event as the client reports it; the modifiers are those held before it. */
  datatype KeyEvent = KeyEvent(name: Name, release: bool, held: set<Modifier>)

  datatype Bindings = Bindings(shift: bool, ctrl: bool, chord: bool)

  const HOST: set<Modifier> := {ControlMask, Mod1, Mod4, SuperMask, MetaMask}

  datatype Tap = ShiftTap | CtrlTap

  /** What the tracker remembers. */
  datatype Memory = Memory(bindings: Bindings, shiftArmed: bool, ctrlArmed: bool, chordHeld: bool)

  predicate IsChord(b: Bindings, e: KeyEvent) {
    b.chord && !e.release && e.name.SpaceKey? && e.held * (HOST + {ShiftMask}) == {ControlMask, Mod1}
  }

  /** Nothing else that counts is held: Shift never counts, and a tracked Ctrl does not count against itself. */
  lemma AloneIff(e: KeyEvent, tap: Tap)
    ensures Alone(e, tap) <==>
            && Mod1 !in e.held && Mod4 !in e.held && SuperMask !in e.held && MetaMask !in e.held
            && (tap.ShiftTap? ==> ControlMask !in e.held)
  {
    if Alone(e, tap) {
      var others := if tap.ShiftTap? then HOST else HOST - {ControlMask};
      assert forall m :: m in e.held && m in others ==> m in e.held * others;
    }
  }

  /** The chord is a press of Space with exactly Ctrl and Alt held. */
  lemma ChordIff(b: Bindings, e: KeyEvent)
    ensures IsChord(b, e) <==>
            && b.chord && !e.release && e.name == SpaceKey
            && ControlMask in e.held && Mod1 in e.held
            && ShiftMask !in e.held && Mod4 !in e.held && SuperMask !in e.held && MetaMask !in e.held
  {
    var counted := e.held * (HOST + {ShiftMask});
    if counted == {ControlMask, Mod1} {
      assert ControlMask in counted && Mod1 in counted;
      assert ShiftMask !in counted && Mod4 !in counted && SuperMask !in counted && MetaMask !in counted;
    }
    if ControlMask in e.held && Mod1 in e.held && ShiftMask !in e.held && Mod4 !in e.held && SuperMask !in e.held
       && MetaMask !in e.held {
      assert counted == {ControlMask, Mod1};
    }
  }

  /** A tap is of its own key under its own binding. */
  lemma TapIff(b: Bindings, e: KeyEvent, tap: Tap)
    ensures IsTap(e, tap) <==> e.name == (if tap == ShiftTap then ShiftKey else CtrlKey)
    ensures Enabled(b, tap) <==> (tap == ShiftTap && b.shift) || (tap == CtrlTap && b.ctrl)
  {
  }

  predicate IsTap(e: KeyEvent, tap: Tap) {
    if tap.ShiftTap? then e.name.ShiftKey? else e.name.CtrlKey?
  }

  /** No host modifier is reported besides the key itself. */
  predicate Alone(e: KeyEvent, tap: Tap) {
    e.held * (if tap.ShiftTap? then HOST else HOST - {ControlMask}) == {}
  }

  predicate Enabled(b: Bindings, tap: Tap) {
    if tap.ShiftTap? then b.shift else b.ctrl
  }

  predicate Armed(m: Memory, tap: Tap) {
    if tap.ShiftTap? then m.shiftArmed else m.ctrlArmed
  }

  function Observed(m: Memory, e: KeyEvent): Memory {
    if IsChord(m.bindings, e) then m.(chordHeld := true)
    else if e.name.ShiftKey? then
      m.(chordHeld := false, shiftArmed := !e.release && m.bindings.shift && Alone(e, ShiftTap),
         ctrlArmed := e.release && m.ctrlArmed)
    else if e.name.CtrlKey? then
      m.(chordHeld := false, ctrlArmed := !e.release && m.bindings.ctrl && Alone(e, CtrlTap),
         shiftArmed := e.release && m.shiftArmed)
    else m.(chordHeld := false, shiftArmed := false, ctrlArmed := false)
  }

  predicate Toggles(m: Memory, e: KeyEvent) {
    if IsChord(m.bindings, e) then !m.chordHeld
    else
      || (e.release && e.name.ShiftKey? && m.shiftArmed && m.bindings.shift && Alone(e, ShiftTap))
      || (e.release && e.name.CtrlKey? && m.ctrlArmed && m.bindings.ctrl && Alone(e, CtrlTap))
  }

  function Configured(m: Memory, b: Bindings): Memory {
    Memory(b, m.shiftArmed && b.shift, m.ctrlArmed && b.ctrl, m.chordHeld && b.chord)
  }

  class Tracker {
    var bindings: Bindings
    var shiftArmed: bool
    var ctrlArmed: bool
    var chordHeld: bool

    function State(): Memory
      reads this
    {
      Memory(bindings, shiftArmed, ctrlArmed, chordHeld)
    }

    constructor (bindings: Bindings)
      ensures State() == Memory(bindings, false, false, false)
    {
      this.bindings, shiftArmed, ctrlArmed, chordHeld := bindings, false, false, false;
    }

    method Configure(b: Bindings)
      modifies this
      ensures State() == Configured(old(State()), b)
    {
      bindings := b;
      if !bindings.shift { shiftArmed := false; }
      if !bindings.ctrl { ctrlArmed := false; }
      if !bindings.chord { chordHeld := false; }
    }

    method Observe(e: KeyEvent) returns (toggle: bool)
      modifies this
      ensures toggle == Toggles(old(State()), e) && State() == Observed(old(State()), e)
    {
      if IsChord(bindings, e) {
        toggle := !chordHeld;
        chordHeld := true;
        return;
      }
      chordHeld := false;
      if !e.name.ShiftKey? && !e.name.CtrlKey? {
        shiftArmed, ctrlArmed := false, false;
        return false;
      }
      var tap := if e.name.ShiftKey? then ShiftTap else CtrlTap;
      var enabled := Enabled(bindings, tap);
      if !e.release {
        shiftArmed, ctrlArmed := false, false;
        if tap.ShiftTap? {
          shiftArmed := enabled && Alone(e, tap);
        } else {
          ctrlArmed := enabled && Alone(e, tap);
        }
        return false;
      }
      toggle := (if tap.ShiftTap? then shiftArmed else ctrlArmed) && enabled && Alone(e, tap);
      if tap.ShiftTap? {
        shiftArmed := false;
      } else {
        ctrlArmed := false;
      }
    }
  }

  // ------------------------------------------------------------------------------------------------- over whole traces

  /** A trace mixes key events and changes of the bindings. */
  datatype Item = Key(event: KeyEvent) | Configure(bindings: Bindings)

  function Next(m: Memory, item: Item): Memory {
    match item
    case Key(e) => Observed(m, e)
    case Configure(b) => Configured(m, b)
  }

  /** The tracker's memory after a trace. */
  function After(b: Bindings, trace: seq<Item>): Memory {
    if trace == [] then Memory(b, false, false, false)
    else Next(After(b, trace[..|trace| - 1]), trace[|trace| - 1])
  }

  /** The bindings in force before item `k`. */
  function BindingsAt(b: Bindings, trace: seq<Item>, k: nat): Bindings
    requires k <= |trace|
  {
    if k == 0 then b
    else match trace[k - 1]
      case Configure(changed) => changed
      case Key(_) => BindingsAt(b, trace, k - 1)
  }

  /** An unmodified press that can start a tap. */
  predicate Starts(b: Bindings, item: Item, tap: Tap) {
    item.Key? && IsTap(item.event, tap) && !item.event.release && Alone(item.event, tap) && Enabled(b, tap)
  }

  /** What may come between the press and the release of a tap: a release of the other tracked key, the bound chord,
      or a change of bindings that keeps this one on. */
  predicate Harmless(b: Bindings, item: Item, tap: Tap) {
    match item
    case Configure(changed) => Enabled(changed, tap)
    case Key(e) => IsChord(b, e) || (e.release && IsTap(e, if tap.ShiftTap? then CtrlTap else ShiftTap))
  }

  predicate PressedAlone(b: Bindings, trace: seq<Item>, tap: Tap, j: nat) {
    && j < |trace| && Starts(BindingsAt(b, trace, j), trace[j], tap)
    && forall k :: j < k < |trace| ==> Harmless(BindingsAt(b, trace, k), trace[k], tap)
  }

  lemma {:induction false} BindingsPrefix(b: Bindings, trace: seq<Item>, n: nat, k: nat)
    requires k <= n <= |trace|
    ensures BindingsAt(b, trace[..n], k) == BindingsAt(b, trace, k)
  {
    if k > 0 {
      BindingsPrefix(b, trace, n, k - 1);
    }
  }

  lemma {:induction false} BindingsAfter(b: Bindings, trace: seq<Item>)
    ensures After(b, trace).bindings == BindingsAt(b, trace, |trace|)
  {
    if trace != [] {
      var n := |trace| - 1;
      BindingsAfter(b, trace[..n]);
      BindingsPrefix(b, trace, n, n);
    }
  }

  lemma PressedSnoc(b: Bindings, trace: seq<Item>, tap: Tap, j: nat)
    requires trace != [] && j < |trace| - 1
    ensures var n := |trace| - 1;
            PressedAlone(b, trace, tap, j) <==>
            PressedAlone(b, trace[..n], tap, j) && Harmless(BindingsAt(b, trace, n), trace[n], tap)
  {
    hide Starts, Harmless;
    var n := |trace| - 1;
    forall k | 0 <= k <= n ensures BindingsAt(b, trace[..n], k) == BindingsAt(b, trace, k) {
      BindingsPrefix(b, trace, n, k);
    }
    if PressedAlone(b, trace, tap, j) {
      forall k | j < k < n ensures Harmless(BindingsAt(b, trace[..n], k), trace[..n][k], tap) {
        assert Harmless(BindingsAt(b, trace, k), trace[k], tap);
      }
    }
    if PressedAlone(b, trace[..n], tap, j) && Harmless(BindingsAt(b, trace, n), trace[n], tap) {
      forall k | j < k < |trace| ensures Harmless(BindingsAt(b, trace, k), trace[k], tap) {
        if k < n {
          assert Harmless(BindingsAt(b, trace[..n], k), trace[..n][k], tap);
        }
      }
    }
  }

  /** One event arms a tap, keeps it armed, or disarms it. */
  lemma ArmedStep(m: Memory, item: Item, tap: Tap)
    requires Armed(m, tap) ==> Enabled(m.bindings, tap)
    ensures Armed(Next(m, item), tap) <==>
            Starts(m.bindings, item, tap) || (Armed(m, tap) && Harmless(m.bindings, item, tap))
    ensures Armed(Next(m, item), tap) ==> Enabled(Next(m, item).bindings, tap)
  {
  }

  lemma {:induction false} ArmedIsEnabled(b: Bindings, trace: seq<Item>, tap: Tap)
    ensures Armed(After(b, trace), tap) ==> Enabled(After(b, trace).bindings, tap)
  {
    if trace != [] {
      ArmedIsEnabled(b, trace[..|trace| - 1], tap);
      ArmedStep(After(b, trace[..|trace| - 1]), trace[|trace| - 1], tap);
    }
  }

  /** A tap is armed exactly when its latest press was unmodified, its binding was on, and everything since was
      harmless. */
  lemma {:induction false} ArmedIff(b: Bindings, trace: seq<Item>, tap: Tap)
    ensures Armed(After(b, trace), tap) <==> exists j: nat :: PressedAlone(b, trace, tap, j)
  {
    hide Next, Starts, Harmless, Armed;
    if trace == [] {
      NothingArmed(b, tap);
    } else {
      var n := |trace| - 1;
      var before, item := After(b, trace[..n]), trace[n];
      BindingsAfter(b, trace[..n]);
      BindingsPrefix(b, trace, n, n);
      ArmedIsEnabled(b, trace[..n], tap);
      ArmedStep(before, item, tap);
      ArmedIff(b, trace[..n], tap);
      if Armed(After(b, trace), tap) {
        if Starts(before.bindings, item, tap) {
          assert PressedAlone(b, trace, tap, n);
        } else {
          var j :| PressedAlone(b, trace[..n], tap, j);
          PressedSnoc(b, trace, tap, j);
        }
      }
      if j: nat :| PressedAlone(b, trace, tap, j) {
        if j < n {
          PressedSnoc(b, trace, tap, j);
        }
      }
    }
  }

  lemma NothingArmed(b: Bindings, tap: Tap)
    ensures !Armed(After(b, []), tap)
  {
  }

  /** Over every trace, a release of Shift or Ctrl toggles exactly when its binding is on, no other host modifier is
      reported, and its last press was unmodified and followed only by harmless events. */
  lemma ReleaseTogglesIff(b: Bindings, trace: seq<Item>, e: KeyEvent, tap: Tap)
    requires e.release && IsTap(e, tap)
    ensures Toggles(After(b, trace), e) <==>
            Enabled(BindingsAt(b, trace, |trace|), tap) && Alone(e, tap) && exists j: nat ::
              PressedAlone(b, trace, tap, j)
  {
    ArmedIff(b, trace, tap);
    BindingsAfter(b, trace);
  }

  /** The previous event was a bound chord press, with at most changes of bindings that keep the chord on since. */
  predicate ChordBefore(b: Bindings, trace: seq<Item>, j: nat) {
    && j < |trace| && trace[j].Key? && IsChord(BindingsAt(b, trace, j), trace[j].event)
    && forall k :: j < k < |trace| ==> trace[k].Configure? && trace[k].bindings.chord
  }

  lemma {:induction false} HeldIff(b: Bindings, trace: seq<Item>)
    ensures After(b, trace).chordHeld <==> exists j: nat :: ChordBefore(b, trace, j)
  {
    hide IsChord, Observed, Configured;
    if trace != [] {
      var n := |trace| - 1;
      var init, item := trace[..n], trace[n];
      BindingsAfter(b, init);
      BindingsPrefix(b, trace, n, n);
      HeldIff(b, init);
      HeldStep(After(b, init), item);
      forall j: nat | j < n ensures ChordBefore(b, trace, j) <==>
        ChordBefore(b, init, j) && item.Configure? && item.bindings.chord {
        BindingsPrefix(b, trace, n, j);
        ChordSnoc(b, trace, j);
      }
      if After(b, trace).chordHeld {
        if item.Key? {
          assert ChordBefore(b, trace, n);
        } else {
          var j :| ChordBefore(b, init, j);
          assert ChordBefore(b, trace, j);
        }
      }
      if j: nat :| ChordBefore(b, trace, j) {
        assert j == n || ChordBefore(b, init, j);
      }
    }
  }

  lemma HeldStep(m: Memory, item: Item)
    ensures Next(m, item).chordHeld <==>
            if item.Key? then IsChord(m.bindings, item.event) else m.chordHeld && item.bindings.chord
  {
  }

  lemma ChordSnoc(b: Bindings, trace: seq<Item>, j: nat)
    requires trace != [] && j < |trace| - 1 && BindingsAt(b, trace[..|trace| - 1], j) == BindingsAt(b, trace, j)
    ensures var n := |trace| - 1;
            ChordBefore(b, trace, j) <==>
              ChordBefore(b, trace[..n], j) && trace[n].Configure? && trace[n].bindings.chord
  {
    hide IsChord;
    var n := |trace| - 1;
    if ChordBefore(b, trace, j) {
      forall k | j < k < n ensures trace[..n][k].Configure? && trace[..n][k].bindings.chord {
        assert trace[k].Configure?;
      }
    }
    if ChordBefore(b, trace[..n], j) && trace[n].Configure? && trace[n].bindings.chord {
      forall k | j < k < |trace| ensures trace[k].Configure? && trace[k].bindings.chord {
        if k < n { assert trace[..n][k].Configure?; }
      }
    }
  }

  /** A chord press toggles exactly when it does not continue a run of chord presses: every maximal run toggles once, at
      its first press, however long the key is held. */
  lemma ChordTogglesIff(b: Bindings, trace: seq<Item>, e: KeyEvent)
    requires IsChord(BindingsAt(b, trace, |trace|), e)
    ensures Toggles(After(b, trace), e) <==> !exists j: nat :: ChordBefore(b, trace, j)
  {
    HeldIff(b, trace);
    BindingsAfter(b, trace);
  }

  /** Nothing else ever toggles. */
  lemma OnlyTapsAndChordsToggle(b: Bindings, trace: seq<Item>, e: KeyEvent)
    requires Toggles(After(b, trace), e)
    ensures IsChord(BindingsAt(b, trace, |trace|), e) || (e.release && (IsTap(e, ShiftTap) || IsTap(e, CtrlTap)))
  {
    BindingsAfter(b, trace);
  }
}
