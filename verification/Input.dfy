/** Input gestures (src/agent-tools/input.ts): the local state of pointer, buttons and keys, and
    the events each operation sends, against a browser that replays those events. */
module Input {
  import opened Basics
  import opened Keys

  datatype Point = Point(x: real, y: real)
  datatype Button = Left | Right | Middle
  /** A bit mask, bit by bit. */
  datatype ButtonMask = ButtonMask(left: bool, right: bool, middle: bool)
  {
    /** `|` */
    function Or(m: ButtonMask): ButtonMask {
      ButtonMask(left || m.left, right || m.right, middle || m.middle)
    }

    /** `& ~` */
    function Clear(m: ButtonMask): ButtonMask {
      ButtonMask(left && !m.left, right && !m.right, middle && !m.middle)
    }

    /** `&`, not zero */
    predicate Has(m: ButtonMask) {
      (left && m.left) || (right && m.right) || (middle && m.middle)
    }

    /** The number itself. */
    function Word(): bv3 {
      (if left then 1 else 0) | (if right then 2 else 0) | (if middle then 4 else 0)
    }
  }

  const NO_BUTTONS := ButtonMask(false, false, false)

  /** The operations on masks are those on their numbers, and a number determines its mask. */
  lemma ButtonWords(a: ButtonMask, b: ButtonMask)
    ensures a.Or(b).Word() == a.Word() | b.Word()
    ensures a.Clear(b).Word() == a.Word() & !b.Word()
    ensures a.Has(b) <==> a.Word() & b.Word() != 0
    ensures a.Word() == b.Word() ==> a == b
    ensures NO_BUTTONS.Word() == 0
  {
  }

  const DRAG_STEPS: nat := 10

  function ButtonBit(b: Button): ButtonMask {
    ButtonMask(b == Left, b == Right, b == Middle)
  }

  ghost function ButtonsMask(s: set<Button>): ButtonMask {
    ButtonMask(Left in s, Right in s, Middle in s)
  }

  lemma ButtonMaskTracksSet(s: set<Button>, b: Button)
    ensures ButtonsMask(s).Or(ButtonBit(b)) == ButtonsMask(s + {b})
    ensures ButtonsMask(s).Clear(ButtonBit(b)) == ButtonsMask(s - {b})
    ensures ButtonsMask(s).Has(ButtonBit(b)) <==> b in s
  {
  }

  /** What a mouse event carries as `button` besides presses and releases: the held one, if any. */
  function HeldButton(buttons: ButtonMask): Option<Button> {
    if buttons.left then Some(Left)
    else if buttons.right then Some(Right)
    else if buttons.middle then Some(Middle)
    else None
  }

  datatype Event =
    | Moved(point: Point, carried: Option<Button>, buttons: ButtonMask, modifiers: ModifierMask)
    | Pressed(point: Point, button: Button, clickCount: int, buttons: ButtonMask, modifiers: ModifierMask)
    | Released(point: Point, button: Button, clickCount: int, buttons: ButtonMask, modifiers: ModifierMask)
    | Wheel(point: Point, deltaX: real, deltaY: real, modifiers: ModifierMask)
    | KeyDown(key: Key, modifiers: ModifierMask)
    | KeyUp(key: Key, modifiers: ModifierMask)

  // ---------------------------------------------------------------- the browser

  /** What is down in the page, by the events alone. */
  datatype Browser = Browser(position: Point, buttons: set<Button>, keys: set<Key>)

  ghost function Apply(b: Browser, e: Event): Browser {
    match e
    case Moved(p, _, _, _) => b.(position := p)
    case Pressed(p, button, _, _, _) => b.(position := p, buttons := b.buttons + {button})
    case Released(p, button, _, _, _) => b.(position := p, buttons := b.buttons - {button})
    case Wheel(p, _, _, _) => b.(position := p)
    case KeyDown(k, _) => b.(keys := b.keys + {k})
    case KeyUp(k, _) => b.(keys := b.keys - {k})
  }

  ghost function Replay(b: Browser, es: seq<Event>): Browser {
    if es == [] then b else Apply(Replay(b, es[..|es| - 1]), es[|es| - 1])
  }

  /** The masks an event carries are exactly those of the browser once it has happened; for mouse
      events together with the modifiers `added`, which a click may name. */
  ghost predicate Truthful(after: Browser, e: Event, added: set<Key>) {
    match e
    case KeyDown(_, m) => m == MaskOf(after.keys)
    case KeyUp(_, m) => m == MaskOf(after.keys)
    case Wheel(_, _, _, m) => m == MaskOf(after.keys).Or(MaskOf(added))
    case _ => e.buttons == ButtonsMask(after.buttons) && e.modifiers == MaskOf(after.keys).Or(MaskOf(added))
  }

  /** Every event of a list is truthful when it arrives. */
  ghost predicate Told(b: Browser, es: seq<Event>, added: set<Key> := {}) {
    es == [] || (Told(b, es[..|es| - 1], added) && Truthful(Replay(b, es), es[|es| - 1], added))
  }

  lemma OneMore(b: Browser, es: seq<Event>, e: Event, added: set<Key> := {})
    ensures Replay(b, es + [e]) == Apply(Replay(b, es), e)
    ensures Told(b, es + [e], added) <==> Told(b, es, added) && Truthful(Apply(Replay(b, es), e), e, added)
  {
    assert (es + [e])[..|es|] == es;
  }

  lemma JustOne(b: Browser, e: Event, added: set<Key> := {})
    ensures Replay(b, [e]) == Apply(b, e)
    ensures Told(b, [e], added) <==> Truthful(Apply(b, e), e, added)
  {
    OneMore(b, [], e, added);
    assert [] + [e] == [e];
  }

  lemma {:induction false} Chain(b: Browser, es: seq<Event>, fs: seq<Event>, added: set<Key> := {})
    ensures Replay(b, es + fs) == Replay(Replay(b, es), fs)
    ensures Told(b, es + fs, added) <==> Told(b, es, added) && Told(Replay(b, es), fs, added)
  {
    if fs == [] {
      assert es + fs == es;
    } else {
      var before := fs[..|fs| - 1];
      Chain(b, es, before, added);
      assert es + fs == (es + before) + [fs[|fs| - 1]];
      OneMore(b, es + before, fs[|fs| - 1], added);
    }
  }

  // ---------------------------------------------------------------- operations

  /** The held keys are kept in the order they went down. */
  datatype Held = Held(position: Point, buttons: ButtonMask, keys: seq<Key>)

  ghost predicate Valid(h: Held) {
    Distinct(h.keys)
  }

  ghost function Mods(h: Held): ModifierMask {
    MaskOf(KeySet(h.keys))
  }

  datatype Op =
    | Click(at: Point, clickButton: Button, count: int, extra: seq<Key>)
    | Move(to: Point)
    | Press(at: Point, button: Button)
    | Release(at: Point, button: Button)
    | Drag(origin: Point, target: Point, steps: nat)
    | Scroll(at: Point, deltaX: real, deltaY: real)
    | Chorded(parts: seq<Key>, repeat: int)
    | HoldKey(key: Key)
    | FreeKey(key: Key)
    | ReleaseAll

  ghost function Clicks(at: Point, button: Button, n: nat, held: ButtonMask, rest: ButtonMask,
                        modifiers: ModifierMask): seq<Event>
  {
    if n == 0 then [] else
      Clicks(at, button, n - 1, held, rest, modifiers)
      + [Pressed(at, button, n, held, modifiers)] + [Released(at, button, n, rest, modifiers)]
  }

  function Clamp(n: int, low: int, high: int): int {
    Min(Max(n, low), high)
  }

  ghost function ClickEvents(h: Held, at: Point, button: Button, count: int, extra: seq<Key>): seq<Event> {
    var modifiers := Mods(h).Or(MaskOf(KeySet(extra)));
    [Moved(at, None, h.buttons, modifiers)]
    + Clicks(at, button, Clamp(count, 1, 3), h.buttons.Or(ButtonBit(button)), h.buttons, modifiers)
  }

  ghost function PressEvents(h: Held, at: Point, button: Button): seq<Event> {
    [Moved(at, HeldButton(h.buttons), h.buttons, Mods(h))]
      + [Pressed(at, button, 1, h.buttons.Or(ButtonBit(button)), Mods(h))]
  }

  ghost function PressDone(h: Held, at: Point, button: Button): Held {
    h.(position := at, buttons := h.buttons.Or(ButtonBit(button)))
  }

  /** The pointer is moved first unless it is there already. */
  ghost function ReleaseEvents(h: Held, at: Point, button: Button): seq<Event> {
    (if at != h.position then [Moved(at, HeldButton(h.buttons), h.buttons, Mods(h))] else [])
    + [Released(at, button, 1, h.buttons.Clear(ButtonBit(button)), Mods(h))]
  }

  ghost function ReleaseDone(h: Held, at: Point, button: Button): Held {
    h.(position := at, buttons := h.buttons.Clear(ButtonBit(button)))
  }

  function Between(origin: Point, target: Point, i: nat, steps: nat): Point
    requires 0 < steps
  {
    Point(origin.x + (target.x - origin.x) * i as real / steps as real,
          origin.y + (target.y - origin.y) * i as real / steps as real)
  }

  ghost function DragMoves(h: Held, origin: Point, target: Point, steps: nat, n: nat): seq<Event>
    requires n <= steps
  {
    if n == 0 then [] else
      DragMoves(h, origin, target, steps, n - 1)
        + [Moved(Between(origin, target, n, steps), Some(Left), h.buttons, Mods(h))]
  }

  ghost function DragEvents(h: Held, origin: Point, target: Point, steps: nat): seq<Event> {
    var pressed := PressDone(h, origin, Left);
    PressEvents(h, origin, Left) + DragMoves(pressed, origin, target, steps, steps)
    + ReleaseEvents(pressed.(position := target), target, Left)
  }

  /** The modifiers a chord has to press: those not down already. */
  ghost function ToPress(down: set<Key>, modifiers: seq<Key>): seq<Key> {
    if modifiers == [] then [] else
      var before := ToPress(down, modifiers[..|modifiers| - 1]);
      var k := modifiers[|modifiers| - 1];
      if k in down + KeySet(before) then before else before + [k]
  }

  ghost function ModifierDowns(down: set<Key>, pressed: seq<Key>): seq<Event> {
    if pressed == [] then [] else
      ModifierDowns(down, pressed[..|pressed| - 1]) + [KeyDown(pressed[|pressed| - 1], MaskOf(down + KeySet(pressed)))]
  }

  ghost function ModifierUps(down: set<Key>, pressed: seq<Key>): seq<Event> {
    if pressed == [] then [] else
      [KeyUp(pressed[|pressed| - 1], MaskOf(down + KeySet(pressed[..|pressed| - 1])))]
      + ModifierUps(down, pressed[..|pressed| - 1])
  }

  ghost function Strokes(k: Key, mask: ModifierMask, n: nat): seq<Event> {
    if n == 0 then [] else Strokes(k, mask, n - 1) + [KeyDown(k, mask)] + [KeyUp(k, mask)]
  }

  ghost function ChordEvents(down: set<Key>, chord: Chord, repeat: int): seq<Event> {
    var pressed := ToPress(down, chord.modifiers);
    ModifierDowns(down, pressed)
    + (if chord.key.Some? then Strokes(chord.key.value, MaskOf(down + KeySet(pressed)), Clamp(repeat, 1, 100)) else [])
    + ModifierUps(down, pressed)
  }

  function Dropped(keys: seq<Key>, k: Key): seq<Key> {
    if keys == [] then [] else if keys[0] == k then keys[1..] else [keys[0]] + Dropped(keys[1..], k)
  }

  ghost function HoldDone(h: Held, k: Key): Held {
    if k in h.keys then h else h.(keys := h.keys + [k])
  }

  ghost function HoldEvents(h: Held, k: Key): seq<Event> {
    if k in h.keys then [] else [KeyDown(k, Mods(HoldDone(h, k)))]
  }

  ghost function FreeDone(h: Held, k: Key): Held {
    h.(keys := Dropped(h.keys, k))
  }

  ghost function FreeEvents(h: Held, k: Key): seq<Event> {
    if k in h.keys then [KeyUp(k, Mods(FreeDone(h, k)))] else []
  }

  /** Lets go of those of the given buttons that are held. */
  ghost function LetGoButtons(h: Held, buttons: seq<Button>): (Held, seq<Event>)
    decreases |buttons|
  {
    if buttons == [] then (h, [])
    else if !h.buttons.Has(ButtonBit(buttons[0])) then LetGoButtons(h, buttons[1..])
    else
      var rest := LetGoButtons(ReleaseDone(h, h.position, buttons[0]), buttons[1..]);
      (rest.0, ReleaseEvents(h, h.position, buttons[0]) + rest.1)
  }

  /** Lets go of the given keys, the last one first. */
  ghost function LetGoKeys(h: Held, names: seq<Key>): (Held, seq<Event>)
    decreases |names|
  {
    if names == [] then (h, [])
    else
      var k := names[|names| - 1];
      var rest := LetGoKeys(FreeDone(h, k), names[..|names| - 1]);
      (rest.0, FreeEvents(h, k) + rest.1)
  }

  const BUTTON_ORDER: seq<Button> := [Left, Right, Middle]

  ghost function Step(h: Held, op: Op): (Held, seq<Event>) {
    match op
    case Click(at, button, count, extra) => (h.(position := at), ClickEvents(h, at, button, count, extra))
    case Move(to) => (h.(position := to), [Moved(to, HeldButton(h.buttons), h.buttons, Mods(h))])
    case Press(at, button) => (PressDone(h, at, button), PressEvents(h, at, button))
    case Release(at, button) => (ReleaseDone(h, at, button), ReleaseEvents(h, at, button))
    case Drag(origin, target, steps) =>
      (ReleaseDone(PressDone(h, origin, Left), target, Left), DragEvents(h, origin, target, steps))
    case Scroll(at, dx, dy) => (h.(position := at), [Wheel(at, dx, dy, Mods(h))])
    case Chorded(parts, repeat) =>
      (h, if Parsed(parts).Err? then [] else ChordEvents(KeySet(h.keys), Parsed(parts).value, repeat))
    case HoldKey(k) => (HoldDone(h, k), HoldEvents(h, k))
    case FreeKey(k) => (FreeDone(h, k), FreeEvents(h, k))
    case ReleaseAll =>
      var (freed, events) := LetGoButtons(h, BUTTON_ORDER);
      var (done, more) := LetGoKeys(freed, freed.keys);
      (done, events + more)
  }

  ghost function Run(h: Held, ops: seq<Op>): (Held, seq<Event>) {
    if ops == [] then (h, []) else
      var (before, events) := Run(h, ops[..|ops| - 1]);
      var (after, more) := Step(before, ops[|ops| - 1]);
      (after, events + more)
  }

  // ---------------------------------------------------------------- agreement

  /** The local state is what the browser makes of the events. */
  ghost predicate Agree(h: Held, b: Browser) {
    h.position == b.position && h.buttons == ButtonsMask(b.buttons) && KeySet(h.keys) == b.keys
  }

  /** Neither clicks a button nor chords a key that is held already. */
  predicate Careful(h: Held, op: Op) {
    match op
    case Click(_, button, _, _) => !h.buttons.Has(ButtonBit(button))
    case Chorded(parts, _) =>
      Parsed(parts).Ok? && Parsed(parts).value.key.Some? ==> Parsed(parts).value.key.value !in h.keys
    case _ => true
  }

  /** A chord of one modifier and nothing else. */
  predicate LoneModifier(op: Op) {
    op.Chorded? && |op.parts| == 1 && IsModifier(op.parts[0])
  }

  lemma NothingAdded(m: ModifierMask)
    ensures m.Or(MaskOf({})) == m
  {
  }

  /** What a press and a release of a button do after some events. */
  lemma OneClick(b: Browser, es: seq<Event>, press: Event, release: Event, added: set<Key>)
    requires press.Pressed? && release.Released? && press.button == release.button && press.point == release.point
    requires press.modifiers == release.modifiers == MaskOf(Replay(b, es).keys).Or(MaskOf(added))
    ensures var before := Replay(b, es);
            && Replay(b, es + [press] + [release]) ==
               before.(position := press.point, buttons := before.buttons - {press.button})
            && (Told(b, es + [press] + [release], added) <==>
                && Told(b, es, added) && press.buttons == ButtonsMask(before.buttons + {press.button})
                && release.buttons == ButtonsMask(before.buttons - {press.button}))
  {
    var before := Replay(b, es);
    OneMore(b, es, press, added);
    OneMore(b, es + [press], release, added);
    assert before.buttons + {press.button} - {press.button} == before.buttons - {press.button};
  }

  lemma SetTwice<T>(s: set<T>, x: T)
    ensures s - {x} + {x} == s + {x} && s - {x} - {x} == s - {x} && s + {x} - {x} == s - {x}
  {
  }

  /** Clicks let go of the button, and their events say the truth about the buttons just where the
      release leaves the mask it found. */
  lemma {:induction false} ClicksReplay(b: Browser, at: Point, button: Button, n: nat, held: ButtonMask,
                                        rest: ButtonMask, modifiers: ModifierMask, added: set<Key>)
    requires modifiers == MaskOf(b.keys).Or(MaskOf(added)) && held == ButtonsMask(b.buttons + {button}) && 0 < n
    ensures var es := Clicks(at, button, n, held, rest, modifiers);
            && Replay(b, es) == b.(position := at, buttons := b.buttons - {button})
            && (Told(b, es, added) <==> rest == ButtonsMask(b.buttons - {button}))
  {
    var es := Clicks(at, button, n - 1, held, rest, modifiers);
    SetTwice(b.buttons, button);
    if n > 1 {
      ClicksReplay(b, at, button, n - 1, held, rest, modifiers, added);
    }
    OneClick(b, es, Pressed(at, button, n, held, modifiers), Released(at, button, n, rest, modifiers), added);
  }

  lemma SameMaskIff(s: set<Button>, b: Button)
    ensures ButtonsMask(s) == ButtonsMask(s - {b}) <==> b !in s
  {
  }

  lemma MoveAndClick(b: Browser, at: Point, button: Button, n: nat, held: ButtonMask, rest: ButtonMask,
                     modifiers: ModifierMask, added: set<Key>)
    requires modifiers == MaskOf(b.keys).Or(MaskOf(added)) && 0 < n
    requires held == ButtonsMask(b.buttons + {button}) && rest == ButtonsMask(b.buttons)
    ensures var es := [Moved(at, None, rest, modifiers)] + Clicks(at, button, n, held, rest, modifiers);
            && Replay(b, es) == b.(position := at, buttons := b.buttons - {button})
            && (Told(b, es, added) <==> button !in b.buttons)
  {
    var moved := Moved(at, None, rest, modifiers);
    JustOne(b, moved, added);
    ClicksReplay(b.(position := at), at, button, n, held, rest, modifiers, added);
    SameMaskIff(b.buttons, button);
    Chain(b, [moved], Clicks(at, button, n, held, rest, modifiers), added);
  }

  lemma ClickReplay(h: Held, b: Browser, at: Point, button: Button, count: int, extra: seq<Key>)
    requires Agree(h, b)
    ensures var es := ClickEvents(h, at, button, count, extra);
            && Replay(b, es) == b.(position := at, buttons := b.buttons - {button})
            && (Told(b, es, KeySet(extra)) <==> button !in b.buttons)
  {
    var held, modifiers := h.buttons.Or(ButtonBit(button)), Mods(h).Or(MaskOf(KeySet(extra)));
    assert held == ButtonsMask(b.buttons + {button}) by { ButtonMaskTracksSet(b.buttons, button); }
    MoveAndClick(b, at, button, Clamp(count, 1, 3), held, h.buttons, modifiers, KeySet(extra));
  }

  /** A click leaves local state and browser in agreement, and says the truth about the buttons,
      exactly when the clicked button was not held before: otherwise its release is not noted. */
  lemma ClickAgreesIff(h: Held, b: Browser, at: Point, button: Button, count: int, extra: seq<Key>)
    requires Agree(h, b)
    ensures var (after, es) := Step(h, Click(at, button, count, extra));
            && (Agree(after, Replay(b, es)) <==> !h.buttons.Has(ButtonBit(button)))
            && (Told(b, es, KeySet(extra)) <==> !h.buttons.Has(ButtonBit(button)))
  {
    ClickReplay(h, b, at, button, count, extra);
    ButtonMaskTracksSet(b.buttons, button);
    SameMaskIff(b.buttons, button);
  }

  lemma PressAgrees(h: Held, b: Browser, at: Point, button: Button)
    requires Agree(h, b)
    ensures Agree(PressDone(h, at, button), Replay(b, PressEvents(h, at, button))) &&
            Told(b, PressEvents(h, at, button))
  {
    var moved := Moved(at, HeldButton(h.buttons), h.buttons, Mods(h));
    NothingAdded(Mods(h));
    JustOne(b, moved);
    OneMore(b, [moved], Pressed(at, button, 1, h.buttons.Or(ButtonBit(button)), Mods(h)));
    ButtonMaskTracksSet(b.buttons, button);
  }

  lemma ReleaseAgrees(h: Held, b: Browser, at: Point, button: Button)
    requires h.buttons == ButtonsMask(b.buttons) && KeySet(h.keys) == b.keys
    ensures Agree(ReleaseDone(h, at, button), Replay(b, ReleaseEvents(h, at, button))) &&
            Told(b, ReleaseEvents(h, at, button))
  {
    var released := Released(at, button, 1, h.buttons.Clear(ButtonBit(button)), Mods(h));
    var moved := Moved(at, HeldButton(h.buttons), h.buttons, Mods(h));
    NothingAdded(Mods(h));
    JustOne(b, moved);
    JustOne(b, released);
    OneMore(b, [moved], released);
    ButtonMaskTracksSet(b.buttons, button);
    assert [] + [released] == [released];
  }

  lemma {:induction false} DragMovesReplay(h: Held, b: Browser, origin: Point, target: Point, steps: nat, n: nat)
    requires n <= steps && h.buttons == ButtonsMask(b.buttons) && KeySet(h.keys) == b.keys
    ensures var es := DragMoves(h, origin, target, steps, n);
            var after := Replay(b, es);
            after.buttons == b.buttons && after.keys == b.keys && Told(b, es)
  {
    if n > 0 {
      DragMovesReplay(h, b, origin, target, steps, n - 1);
      NothingAdded(Mods(h));
      var moved := Moved(Between(origin, target, n, steps), Some(Left), h.buttons, Mods(h));
      OneMore(b, DragMoves(h, origin, target, steps, n - 1), moved);
    }
  }

  lemma DragAgrees(h: Held, b: Browser, origin: Point, target: Point, steps: nat)
    requires Agree(h, b)
    ensures var (after, es) := Step(h, Drag(origin, target, steps));
            Agree(after, Replay(b, es)) && Told(b, es)
  {
    var pressed := PressDone(h, origin, Left);
    var first := PressEvents(h, origin, Left);
    var moves := DragMoves(pressed, origin, target, steps, steps);
    var last := ReleaseEvents(pressed.(position := target), target, Left);
    PressAgrees(h, b, origin, Left);
    DragMovesReplay(pressed, Replay(b, first), origin, target, steps, steps);
    Chain(b, first, moves);
    ReleaseAgrees(pressed.(position := target), Replay(b, first + moves), target, Left);
    Chain(b, first + moves, last);
  }

  // ---------------------------------------------------------------- chords

  lemma {:induction false} ToPressMeaning(down: set<Key>, modifiers: seq<Key>)
    ensures var pressed := ToPress(down, modifiers);
            && Distinct(pressed) && KeySet(pressed) == KeySet(modifiers) - down
  {
    if modifiers != [] {
      var before := modifiers[..|modifiers| - 1];
      ToPressMeaning(down, before);
      assert modifiers == before + [modifiers[|modifiers| - 1]];
      KeySetAppend(before, modifiers[|modifiers| - 1]);
      KeySetAppend(ToPress(down, before), modifiers[|modifiers| - 1]);
    }
  }

  lemma {:induction false} ModifierDownsReplay(b: Browser, pressed: seq<Key>)
    ensures var es := ModifierDowns(b.keys, pressed);
            Replay(b, es) == b.(keys := b.keys + KeySet(pressed)) && Told(b, es)
  {
    if pressed != [] {
      var before := pressed[..|pressed| - 1];
      var k := pressed[|pressed| - 1];
      var es, down := ModifierDowns(b.keys, before), KeyDown(k, MaskOf(b.keys + KeySet(pressed)));
      assert b.keys + KeySet(before) + {k} == b.keys + KeySet(pressed) by {
        assert pressed == before + [k];
        KeySetAppend(before, k);
      }
      assert Replay(b, es) == b.(keys := b.keys + KeySet(before)) && Told(b, es) by { ModifierDownsReplay(b, before); }
      OneMore(b, es, down);
    } else {
      assert b.keys + KeySet(pressed) == b.keys;
    }
  }

  lemma OneStroke(b: Browser, es: seq<Event>, k: Key, mask: ModifierMask)
    ensures var before := Replay(b, es);
            var all := es + [KeyDown(k, mask)] + [KeyUp(k, mask)];
            && Replay(b, all) == before.(keys := before.keys - {k})
            && (Told(b, all) <==> Told(b, es) && mask == MaskOf(before.keys + {k}) && mask == MaskOf(before.keys - {k}))
  {
    SetTwice(Replay(b, es).keys, k);
    OneMore(b, es, KeyDown(k, mask));
    OneMore(b, es + [KeyDown(k, mask)], KeyUp(k, mask));
  }

  lemma {:induction false} StrokesReplay(b: Browser, k: Key, mask: ModifierMask, n: nat)
    requires 0 < n
    ensures var es := Strokes(k, mask, n);
            && Replay(b, es) == b.(keys := b.keys - {k})
            && (Told(b, es) <==> mask == MaskOf(b.keys + {k}) && mask == MaskOf(b.keys - {k}))
  {
    SetTwice(b.keys, k);
    if n > 1 {
      StrokesReplay(b, k, mask, n - 1);
    }
    OneStroke(b, Strokes(k, mask, n - 1), k, mask);
  }

  lemma StrokeMasks(keys: set<Key>, k: Key)
    ensures MaskOf(keys + {k}) == MaskOf(keys) == MaskOf(keys - {k}) <==> !IsModifier(k)
  {
  }

  /** Releasing the pressed modifiers while some other keys have been lost meanwhile. */
  lemma {:induction false} ModifierUpsReplay(b: Browser, down: set<Key>, pressed: seq<Key>, lost: set<Key>)
    requires Distinct(pressed) && KeySet(pressed) !! down && KeySet(pressed) !! lost
    requires b.keys == down - lost + KeySet(pressed)
    requires forall k <- lost :: !IsModifier(k)
    ensures var es := ModifierUps(down, pressed);
            Replay(b, es) == b.(keys := down - lost) && Told(b, es)
    decreases |pressed|
  {
    if pressed != [] {
      var before := pressed[..|pressed| - 1];
      var k := pressed[|pressed| - 1];
      var rest := ModifierUps(down, before);
      var up := KeyUp(k, MaskOf(down + KeySet(before)));
      var b' := b.(keys := down - lost + KeySet(before));
      assert KeySet(before) == KeySet(pressed) - {k} by {
        assert pressed == before + [k] && k !in before;
        KeySetAppend(before, k);
      }
      assert Replay(b, [up]) == b' && Told(b, [up]) by {
        assert b.keys - {k} == b'.keys;
        SameModifiers(b'.keys, down + KeySet(before));
        JustOne(b, up);
      }
      assert Replay(b', rest) == b.(keys := down - lost) && Told(b', rest) by {
        ModifierUpsReplay(b', down, before, lost);
      }
      Chain(b, [up], rest);
    } else {
      assert down - lost + KeySet(pressed) == down - lost;
    }
  }

  /** The modifiers go down, something happens to the keys in between, and they go up again. */
  lemma Bracketed(b: Browser, pressed: seq<Key>, inner: seq<Event>, lost: set<Key>)
    requires Distinct(pressed) && KeySet(pressed) !! b.keys && KeySet(pressed) !! lost
    requires forall k <- lost :: !IsModifier(k)
    requires var held := b.(keys := b.keys + KeySet(pressed));
             Replay(held, inner) == held.(keys := held.keys - lost) && Told(held, inner)
    ensures var es := ModifierDowns(b.keys, pressed) + inner + ModifierUps(b.keys, pressed);
            Replay(b, es) == b.(keys := b.keys - lost) && Told(b, es)
  {
    var downs := ModifierDowns(b.keys, pressed);
    ModifierDownsReplay(b, pressed);
    Chain(b, downs, inner);
    var held := b.(keys := b.keys + KeySet(pressed));
    assert held.keys - lost == b.keys - lost + KeySet(pressed);
    ModifierUpsReplay(held.(keys := held.keys - lost), b.keys, pressed, lost);
    Chain(b, downs + inner, ModifierUps(b.keys, pressed));
  }

  lemma LoneModifierReplay(b: Browser, k: Key, repeat: int)
    requires IsModifier(k)
    ensures var es := ChordEvents(b.keys, Chord([], Some(k)), repeat);
            Replay(b, es) == b.(keys := b.keys - {k}) && !Told(b, es)
  {
    var n := Clamp(repeat, 1, 100);
    var strokes := Strokes(k, MaskOf(b.keys), n);
    assert b.keys + KeySet([]) == b.keys;
    assert [] + strokes + [] == strokes;
    StrokesReplay(b, k, MaskOf(b.keys), n);
    StrokeMasks(b.keys, k);
  }

  /** Pressing a chord takes its key off what was down and changes nothing else; every event's mask
      is the modifiers then down exactly when the key is not itself a modifier. */
  lemma ChordReplay(b: Browser, parts: seq<Key>, repeat: int)
    requires Parsed(parts).Ok?
    ensures var chord := Parsed(parts).value;
            var es := ChordEvents(b.keys, chord, repeat);
            && Replay(b, es) == b.(keys := b.keys - if chord.key.Some? then {chord.key.value} else {})
            && (Told(b, es) <==> !LoneModifier(Chorded(parts, repeat)))
  {
    var chord := Parsed(parts).value;
    ChordMeaning(parts);
    if LoneModifier(Chorded(parts, repeat)) {
      LoneModifierReplay(b, parts[0], repeat);
    } else {
      var pressed := ToPress(b.keys, chord.modifiers);
      ToPressMeaning(b.keys, chord.modifiers);
      var held := b.(keys := b.keys + KeySet(pressed));
      if chord.key.None? {
        assert held.keys - {} == held.keys;
        Bracketed(b, pressed, [], {});
      } else {
        var k := chord.key.value;
        assert k !in KeySet(pressed);
        StrokesReplay(held, k, MaskOf(held.keys), Clamp(repeat, 1, 100));
        StrokeMasks(held.keys, k);
        Bracketed(b, pressed, Strokes(k, MaskOf(held.keys), Clamp(repeat, 1, 100)), {k});
      }
    }
  }

  /** A chord restores what was down, and so agrees with the unchanged local state, exactly when
      its key was not held. */
  lemma ChordAgreesIff(h: Held, b: Browser, parts: seq<Key>, repeat: int)
    requires Agree(h, b)
    ensures var (after, es) := Step(h, Chorded(parts, repeat));
            && (Agree(after, Replay(b, es)) <==> Careful(h, Chorded(parts, repeat)))
            && (Replay(b, es) == b <==> Careful(h, Chorded(parts, repeat)))
            && (Told(b, es) <==> !LoneModifier(Chorded(parts, repeat)))
  {
    if Parsed(parts).Ok? {
      ChordReplay(b, parts, repeat);
      var key := Parsed(parts).value.key;
      if key.Some? {
        assert key.value in b.keys <==> key.value in h.keys;
        if key.value !in b.keys {
          assert b.keys - {key.value} == b.keys;
        }
      } else {
        assert b.keys - {} == b.keys;
      }
    }
  }

  // ---------------------------------------------------------------- keys and releasing

  lemma {:induction false} DroppedMeaning(keys: seq<Key>, k: Key)
    requires Distinct(keys)
    ensures Distinct(Dropped(keys, k)) && KeySet(Dropped(keys, k)) == KeySet(keys) - {k}
  {
    if keys != [] {
      var rest := keys[1..];
      assert keys == [keys[0]] + rest;
      assert keys[0] !in KeySet(rest);
      KeySetPrepend(keys[0], rest);
      if keys[0] != k {
        DroppedMeaning(rest, k);
        KeySetPrepend(keys[0], Dropped(rest, k));
        assert keys[0] !in KeySet(Dropped(rest, k));
      }
    }
  }

  lemma HoldAgrees(h: Held, b: Browser, k: Key)
    requires Valid(h) && Agree(h, b)
    ensures Valid(HoldDone(h, k)) && Agree(HoldDone(h, k), Replay(b, HoldEvents(h, k))) && Told(b, HoldEvents(h, k))
  {
    KeySetAppend(h.keys, k);
    JustOne(b, KeyDown(k, Mods(HoldDone(h, k))));
  }

  lemma FreeAgrees(h: Held, b: Browser, k: Key)
    requires Valid(h) && Agree(h, b)
    ensures Valid(FreeDone(h, k)) && Agree(FreeDone(h, k), Replay(b, FreeEvents(h, k))) && Told(b, FreeEvents(h, k))
  {
    DroppedMeaning(h.keys, k);
    JustOne(b, KeyUp(k, Mods(FreeDone(h, k))));
    if k !in h.keys {
      assert b.keys - {k} == b.keys;
    }
  }

  lemma LetGoOne(h: Held, b: Browser, x: Button)
    requires Agree(h, b)
    ensures var es := ReleaseEvents(h, h.position, x);
            && Agree(ReleaseDone(h, h.position, x), Replay(b, es)) && Told(b, es)
            && Replay(b, es).buttons == b.buttons - {x}
  {
    ReleaseAgrees(h, b, h.position, x);
    var released := Released(h.position, x, 1, h.buttons.Clear(ButtonBit(x)), Mods(h));
    assert [] + [released] == [released];
    JustOne(b, released);
  }

  function ButtonSet(buttons: seq<Button>): set<Button> {
    set x | x in buttons
  }

  lemma {:induction false} LetGoButtonsAgrees(h: Held, b: Browser, buttons: seq<Button>)
    requires Agree(h, b)
    ensures var (after, es) := LetGoButtons(h, buttons);
            && Agree(after, Replay(b, es)) && Told(b, es)
            && after.keys == h.keys && Replay(b, es).buttons == b.buttons - ButtonSet(buttons)
    decreases |buttons|
  {
    if buttons != [] {
      if !h.buttons.Has(ButtonBit(buttons[0])) {
        ButtonMaskTracksSet(b.buttons, buttons[0]);
        LetGoButtonsAgrees(h, b, buttons[1..]);
      } else {
        LetGoButtonsStep(h, b, buttons);
      }
    }
  }

  lemma {:induction false} LetGoButtonsStep(h: Held, b: Browser, buttons: seq<Button>)
    requires Agree(h, b) && buttons != [] && h.buttons.Has(ButtonBit(buttons[0]))
    ensures var (after, es) := LetGoButtons(h, buttons);
            && Agree(after, Replay(b, es)) && Told(b, es)
            && after.keys == h.keys && Replay(b, es).buttons == b.buttons - {buttons[0]} - ButtonSet(buttons[1..])
    decreases |buttons|, 0
  {
    var es := ReleaseEvents(h, h.position, buttons[0]);
    var h' := ReleaseDone(h, h.position, buttons[0]);
    LetGoOne(h, b, buttons[0]);
    LetGoButtonsAgrees(h', Replay(b, es), buttons[1..]);
    Chain(b, es, LetGoButtons(h', buttons[1..]).1);
  }

  lemma {:induction false} LetGoKeysAgrees(h: Held, b: Browser, names: seq<Key>)
    requires Valid(h) && Agree(h, b)
    ensures var (after, es) := LetGoKeys(h, names);
            && Valid(after) && Agree(after, Replay(b, es)) && Told(b, es)
            && after.buttons == h.buttons && KeySet(after.keys) == KeySet(h.keys) - KeySet(names)
    decreases |names|
  {
    if names != [] {
      var before := names[..|names| - 1];
      var k := names[|names| - 1];
      assert names == before + [k];
      KeySetAppend(before, k);
      FreeAgrees(h, b, k);
      DroppedMeaning(h.keys, k);
      LetGoKeysAgrees(FreeDone(h, k), Replay(b, FreeEvents(h, k)), before);
      Chain(b, FreeEvents(h, k), LetGoKeys(FreeDone(h, k), before).1);
    }
  }

  /** After letting go of everything nothing is held, neither by the local state nor in the page. */
  lemma ReleaseAllReleasesAll(h: Held, b: Browser)
    requires Valid(h) && Agree(h, b)
    ensures var (after, es) := Step(h, ReleaseAll);
            && after.buttons == NO_BUTTONS && after.keys == []
            && Replay(b, es).buttons == {} && Replay(b, es).keys == {}
            && Agree(after, Replay(b, es)) && Told(b, es)
  {
    var (freed, events) := LetGoButtons(h, BUTTON_ORDER);
    var (done, more) := LetGoKeys(freed, freed.keys);
    LetGoAllButtons(h, b);
    var mid := Replay(b, events);
    assert Agree(done, Replay(mid, more)) && Told(mid, more) &&
           KeySet(done.keys) == {} && done.buttons == NO_BUTTONS by {
      LetGoKeysAgrees(freed, mid, freed.keys);
    }
    NoKeys(done.keys);
    NoButtons(Replay(mid, more).buttons);
    Chain(b, events, more);
  }

  lemma LetGoAllButtons(h: Held, b: Browser)
    requires Agree(h, b)
    ensures var (freed, events) := LetGoButtons(h, BUTTON_ORDER);
            && Agree(freed, Replay(b, events)) && Told(b, events)
            && freed.keys == h.keys && freed.buttons == NO_BUTTONS && Replay(b, events).buttons == {}
  {
    LetGoButtonsAgrees(h, b, BUTTON_ORDER);
    assert BUTTON_ORDER[0] == Left && BUTTON_ORDER[1] == Right && BUTTON_ORDER[2] == Middle;
    forall x: Button ensures x in BUTTON_ORDER {
      assert x == Left || x == Right || x == Middle;
    }
    NoButtons({});
  }

  lemma NoButtons(s: set<Button>)
    ensures ButtonsMask(s) == NO_BUTTONS <==> s == {}
  {
    if ButtonsMask(s) == NO_BUTTONS {
      forall x ensures x !in s {
        ButtonMaskTracksSet(s, x);
      }
    }
  }

  // ---------------------------------------------------------------- whole runs

  lemma MoveAgrees(h: Held, b: Browser, to: Point)
    requires Agree(h, b)
    ensures Agree(Step(h, Move(to)).0, Replay(b, Step(h, Move(to)).1)) && Told(b, Step(h, Move(to)).1)
  {
    NothingAdded(Mods(h));
    JustOne(b, Moved(to, HeldButton(h.buttons), h.buttons, Mods(h)));
  }

  lemma ScrollAgrees(h: Held, b: Browser, at: Point, dx: real, dy: real)
    requires Agree(h, b)
    ensures Agree(Step(h, Scroll(at, dx, dy)).0, Replay(b, Step(h, Scroll(at, dx, dy)).1))
    ensures Told(b, Step(h, Scroll(at, dx, dy)).1)
  {
    NothingAdded(Mods(h));
    JustOne(b, Wheel(at, dx, dy, Mods(h)));
  }

  /** The modifiers an operation names besides those that are down. */
  function Named(op: Op): set<Key> {
    if op.Click? then set k | k in op.extra else {}
  }

  /** One operation keeps local state and browser in agreement exactly when it is careful. If so, its
      events carry exactly the masks of what is down, with the named modifiers in case of a click,
      unless it is the chord of a lone modifier. */
  lemma StepAgreesIff(h: Held, b: Browser, op: Op)
    requires Valid(h) && Agree(h, b)
    ensures Valid(Step(h, op).0)
    ensures Agree(Step(h, op).0, Replay(b, Step(h, op).1)) <==> Careful(h, op)
    ensures Careful(h, op) ==> (Told(b, Step(h, op).1, Named(op)) <==> !LoneModifier(op))
  {
    match op
    case Click(at, button, count, extra) => ClickAgreesIff(h, b, at, button, count, extra);
    case Move(to) => MoveAgrees(h, b, to);
    case Press(at, button) => PressAgrees(h, b, at, button);
    case Release(at, button) => ReleaseAgrees(h, b, at, button);
    case Drag(origin, target, steps) => DragAgrees(h, b, origin, target, steps);
    case Scroll(at, dx, dy) => ScrollAgrees(h, b, at, dx, dy);
    case Chorded(parts, repeat) => ChordAgreesIff(h, b, parts, repeat);
    case HoldKey(k) => HoldAgrees(h, b, k);
    case FreeKey(k) => FreeAgrees(h, b, k);
    case ReleaseAll => ReleaseAllReleasesAll(h, b);
  }

  ghost predicate CarefulRun(h: Held, ops: seq<Op>) {
    forall i :: 0 <= i < |ops| ==> Careful(Run(h, ops[..i]).0, ops[i])
  }

  /** Every event of a run is truthful when it arrives, given the modifiers its operation names. */
  ghost predicate ToldThroughout(h: Held, b: Browser, ops: seq<Op>) {
    ops == [] ||
    var before, op := ops[..|ops| - 1], ops[|ops| - 1];
    && ToldThroughout(h, b, before)
    && Told(Replay(b, Run(h, before).1), Step(Run(h, before).0, op).1, Named(op))
  }

  predicate NoLoneModifier(ops: seq<Op>) {
    forall i :: 0 <= i < |ops| ==> !LoneModifier(ops[i])
  }

  lemma CarefulBefore(h: Held, ops: seq<Op>)
    requires CarefulRun(h, ops) && ops != []
    ensures CarefulRun(h, ops[..|ops| - 1]) && Careful(Run(h, ops[..|ops| - 1]).0, ops[|ops| - 1])
  {
    var before := ops[..|ops| - 1];
    forall i | 0 <= i < |before| ensures Careful(Run(h, before[..i]).0, before[i]) {
      assert before[..i] == ops[..i];
      assert Careful(Run(h, ops[..i]).0, ops[i]);
    }
  }

  /** Replaying everything a run sent gives exactly the buttons, keys and position of the local
      state, whatever the operations, as long as none clicks or chords what is held already; and
      every mask sent on the way was exact exactly if no chord was a lone modifier. */
  lemma {:induction false} RunAgrees(h: Held, b: Browser, ops: seq<Op>)
    requires Valid(h) && Agree(h, b) && CarefulRun(h, ops)
    ensures var (after, es) := Run(h, ops); Valid(after) && Agree(after, Replay(b, es))
    ensures ToldThroughout(h, b, ops) <==> NoLoneModifier(ops)
  {
    if ops != [] {
      var before, op := ops[..|ops| - 1], ops[|ops| - 1];
      CarefulBefore(h, ops);
      RunAgrees(h, b, before);
      var (mid, es) := Run(h, before);
      StepAgreesIff(mid, Replay(b, es), op);
      Chain(b, es, Step(mid, op).1);
      assert NoLoneModifier(ops) <==> NoLoneModifier(before) && !LoneModifier(op) by {
        assert ops == before + [op];
      }
    }
  }

  // ---------------------------------------------------------------- where local state and page part

  const ORIGIN := Point(0.0, 0.0)

  /** The left button is pressed and then clicked: it stays marked as held, while the page has seen
      it released. */
  lemma ClickOfHeldButton()
    ensures var h := PressDone(Held(ORIGIN, NO_BUTTONS, []), ORIGIN, Left);
            var b := Browser(ORIGIN, {Left}, {});
            var (after, es) := Step(h, Click(ORIGIN, Left, 1, []));
            Agree(h, b) && after.buttons == ButtonBit(Left) && Replay(b, es).buttons == {}
  {
    var h := PressDone(Held(ORIGIN, NO_BUTTONS, []), ORIGIN, Left);
    var b := Browser(ORIGIN, {Left}, {});
    assert KeySet([]) == {};
    ClickReplay(h, b, ORIGIN, Left, 1, []);
  }

  /** A held key is chorded: it stays marked as held, while the page has seen it released. */
  lemma ChordOfHeldKey()
    ensures var h := Held(ORIGIN, NO_BUTTONS, ["a"]);
            var b := Browser(ORIGIN, {}, {"a"});
            var (after, es) := Step(h, Chorded(["a"], 1));
            Agree(h, b) && after.keys == ["a"] && Replay(b, es).keys == {}
  {
    var h := Held(ORIGIN, NO_BUTTONS, ["a"]);
    var b := Browser(ORIGIN, {}, {"a"});
    assert KeySet(["a"]) == {"a"};
    ChordReplay(b, ["a"], 1);
  }

  /** The chord of Shift alone: its events carry a mask without Shift while Shift goes down. */
  lemma ChordOfShift()
    ensures var h := Held(ORIGIN, NO_BUTTONS, []);
            var b := Browser(ORIGIN, {}, {});
            var es := Step(h, Chorded(["Shift"], 1)).1;
            Agree(h, b) && !Told(b, es) && Parsed(["Shift"]) == Ok(Chord([], Some("Shift")))
  {
    var b := Browser(ORIGIN, {}, {});
    assert KeySet([]) == {};
    ChordReplay(b, ["Shift"], 1);
  }

  // ---------------------------------------------------------------- the operations in place

  /** One tab's input state. Each operation returns the events it sends, in order. */
  class InputState {
    var position: Point
    var buttons: ButtonMask
    var heldKeys: seq<Key>

    ghost function View(): Held
      reads this
    {
      Held(position, buttons, heldKeys)
    }

    constructor ()
      ensures View() == Held(Point(0.0, 0.0), NO_BUTTONS, [])
    {
      position, buttons, heldKeys := Point(0.0, 0.0), NO_BUTTONS, [];
    }

    method Modifiers() returns (mask: ModifierMask)
      ensures mask == Mods(View())
    {
      mask := NO_MODIFIERS;
      for i := 0 to |heldKeys|
        invariant mask == MaskOf(KeySet(heldKeys[..i]))
      {
        assert heldKeys[..i + 1] == heldKeys[..i] + [heldKeys[i]];
        KeySetAppend(heldKeys[..i], heldKeys[i]);
        if IsModifier(heldKeys[i]) {
          MaskTracksSet(KeySet(heldKeys[..i]), heldKeys[i]);
          mask := mask.Or(ModifierBit(heldKeys[i]));
        } else {
          OtherKeysDoNotMask(KeySet(heldKeys[..i]), heldKeys[i]);
        }
      }
      assert heldKeys[..|heldKeys|] == heldKeys;
    }

    method ClickAt(point: Point, button: Button, clickCount: int, extra: seq<Key>) returns (events: seq<Event>)
      requires forall k <- extra :: IsModifier(k)
      modifies this
      ensures (View(), events) == Step(old(View()), Click(point, button, clickCount, extra))
    {
      var count := Clamp(clickCount, 1, 3);
      var own := Modifiers();
      var added := ModifierMaskOf(extra);
      var modifiers := own.Or(added);
      var held := buttons.Or(ButtonBit(button));
      events := [Moved(point, None, buttons, modifiers)];
      for n := 1 to count + 1
        invariant events ==
                  [Moved(point, None, buttons, modifiers)] + Clicks(point, button, n - 1, held, buttons, modifiers)
        invariant View() == old(View())
      {
        events := events + [Pressed(point, button, n, held, modifiers)];
        events := events + [Released(point, button, n, buttons, modifiers)];
      }
      position := point;
    }

    method MouseMove(point: Point) returns (events: seq<Event>)
      modifies this
      ensures (View(), events) == Step(old(View()), Move(point))
    {
      var modifiers := Modifiers();
      events := [Moved(point, HeldButton(buttons), buttons, modifiers)];
      position := point;
    }

    method MouseDown(point: Point, button: Button) returns (events: seq<Event>)
      modifies this
      ensures (View(), events) == Step(old(View()), Press(point, button))
    {
      var pressed := buttons.Or(ButtonBit(button));
      var modifiers := Modifiers();
      events := [Moved(point, HeldButton(buttons), buttons, modifiers)]
        + [Pressed(point, button, 1, pressed, modifiers)];
      buttons := pressed;
      position := point;
    }

    method MouseUp(point: Point, button: Button) returns (events: seq<Event>)
      modifies this
      ensures View() == ReleaseDone(old(View()), point, button) && events == ReleaseEvents(old(View()), point, button)
    {
      var rest := buttons.Clear(ButtonBit(button));
      var modifiers := Modifiers();
      events := [];
      if point.x != position.x || point.y != position.y {
        events := [Moved(point, HeldButton(buttons), buttons, modifiers)];
      }
      events := events + [Released(point, button, 1, rest, modifiers)];
      buttons := rest;
      position := point;
    }

    method DragTo(origin: Point, target: Point, steps: nat := DRAG_STEPS) returns (events: seq<Event>)
      modifies this
      ensures (View(), events) == Step(old(View()), Drag(origin, target, steps))
    {
      var first := MouseDown(origin, Left);
      var modifiers := Modifiers();
      var moves: seq<Event> := [];
      for i := 1 to steps + 1
        invariant View() == PressDone(old(View()), origin, Left)
        invariant moves == DragMoves(View(), origin, target, steps, i - 1)
      {
        moves := moves + [Moved(Between(origin, target, i, steps), Some(Left), buttons, modifiers)];
      }
      position := target;
      var last := MouseUp(target, Left);
      events := first + moves + last;
    }

    method WheelAt(point: Point, deltaX: real, deltaY: real) returns (events: seq<Event>)
      modifies this
      ensures (View(), events) == Step(old(View()), Scroll(point, deltaX, deltaY))
    {
      var modifiers := Modifiers();
      events := [Wheel(point, deltaX, deltaY, modifiers)];
      position := point;
    }

    /** Presses the modifiers that are not down, works the key, and releases what it pressed in
        reverse order. */
    method PressChord(parts: seq<Key>, repeat: int) returns (r: Result<seq<Event>, ChordError>)
      ensures r.Err? <==> Parsed(parts).Err?
      ensures r.Err? ==> r.error == Parsed(parts).error
      ensures (View(), if r.Ok? then r.value else []) == Step(View(), Chorded(parts, repeat))
    {
      var parsed := ParseChord(parts);
      if parsed.Err? {
        return Err(parsed.error);
      }
      ChordMeaning(parts);
      var chord := parsed.value;
      ghost var down := KeySet(heldKeys);
      var mask := Modifiers();
      var downs, pressed, full := PressModifiers(chord.modifiers, mask, down);
      var strokes: seq<Event> := [];
      if chord.key.Some? {
        strokes := StrokeKey(chord.key.value, full, Clamp(repeat, 1, 100));
      }
      ToPressMeaning(down, chord.modifiers);
      assert forall k <- pressed :: k in KeySet(chord.modifiers) by {
        assert forall k <- pressed :: k in KeySet(pressed);
      }
      var ups := ReleaseModifiers(pressed, full, down);
      return Ok(downs + strokes + ups);
    }

    method KeyDownOn(k: Key) returns (events: seq<Event>)
      modifies this
      ensures (View(), events) == Step(old(View()), HoldKey(k))
    {
      if k in heldKeys {
        return [];
      }
      heldKeys := heldKeys + [k];
      var modifiers := Modifiers();
      return [KeyDown(k, modifiers)];
    }

    method KeyUpOn(k: Key) returns (events: seq<Event>)
      modifies this
      ensures View() == FreeDone(old(View()), k) && events == FreeEvents(old(View()), k)
    {
      if k !in heldKeys {
        NothingDropped(heldKeys, k);
        return [];
      }
      heldKeys := Dropped(heldKeys, k);
      var modifiers := Modifiers();
      return [KeyUp(k, modifiers)];
    }

    method LetGo() returns (events: seq<Event>)
      modifies this
      ensures (View(), events) == Step(old(View()), ReleaseAll)
    {
      events := LetGoOfButtons();
      var more := LetGoOfKeys();
      events := events + more;
    }

    method LetGoOfButtons() returns (events: seq<Event>)
      modifies this
      ensures (View(), events) == LetGoButtons(old(View()), BUTTON_ORDER)
    {
      events := [];
      ghost var start := View();
      assert BUTTON_ORDER[0..] == BUTTON_ORDER;
      for i := 0 to 3
        invariant ButtonsLeft(start, i, View(), events)
      {
        NextButtonLetGo(start, i, View(), events);
        var button := BUTTON_ORDER[i];
        if buttons.Has(ButtonBit(button)) {
          var more := MouseUp(position, button);
          events := events + more;
        }
      }
      AllButtonsLetGo(start, View(), events);
    }

    method LetGoOfKeys() returns (events: seq<Event>)
      modifies this
      ensures (View(), events) == LetGoKeys(old(View()), old(heldKeys))
    {
      events := [];
      var names := heldKeys;
      var n := |names|;
      assert names[..n] == names;
      ghost var start := View();
      while n > 0
        invariant 0 <= n <= |names|
        invariant KeysLeft(start, names, n, View(), events)
      {
        n := n - 1;
        NextKeyLetGo(start, names, n, View(), events);
        var more := KeyUpOn(names[n]);
        events := events + more;
      }
      AllKeysLetGo(start, names, View(), events);
    }
  }

  /** The buttons from the i-th on remain to be let go of. */
  ghost predicate ButtonsLeft(start: Held, i: nat, h: Held, events: seq<Event>)
    requires i <= 3
  {
    && LetGoButtons(start, BUTTON_ORDER).0 == LetGoButtons(h, BUTTON_ORDER[i..]).0
    && LetGoButtons(start, BUTTON_ORDER).1 == events + LetGoButtons(h, BUTTON_ORDER[i..]).1
  }

  lemma NextButtonLetGo(start: Held, i: nat, h: Held, events: seq<Event>)
    requires i < 3 && ButtonsLeft(start, i, h, events)
    ensures var button := BUTTON_ORDER[i];
            if h.buttons.Has(ButtonBit(button))
            then ButtonsLeft(start, i + 1, ReleaseDone(h, h.position, button),
                             events + ReleaseEvents(h, h.position, button))
            else ButtonsLeft(start, i + 1, h, events)
  {
    var button := BUTTON_ORDER[i];
    var rest := BUTTON_ORDER[i + 1..];
    assert BUTTON_ORDER[i..] == [button] + rest;
    if h.buttons.Has(ButtonBit(button)) {
      var released := ReleaseEvents(h, h.position, button);
      var later := LetGoButtons(ReleaseDone(h, h.position, button), rest).1;
      assert events + (released + later) == (events + released) + later;
    }
  }

  lemma AllButtonsLetGo(start: Held, h: Held, events: seq<Event>)
    requires ButtonsLeft(start, 3, h, events)
    ensures LetGoButtons(start, BUTTON_ORDER) == (h, events)
  {
    assert BUTTON_ORDER[3..] == [] && events + [] == events;
  }

  lemma AllKeysLetGo(start: Held, names: seq<Key>, h: Held, events: seq<Event>)
    requires KeysLeft(start, names, 0, h, events)
    ensures LetGoKeys(start, names) == (h, events)
  {
    assert names[..0] == [] && events + [] == events;
  }

  /** The first n of the names remain to be let go of. */
  ghost predicate KeysLeft(start: Held, names: seq<Key>, n: nat, h: Held, events: seq<Event>)
    requires n <= |names|
  {
    && LetGoKeys(start, names).0 == LetGoKeys(h, names[..n]).0
    && LetGoKeys(start, names).1 == events + LetGoKeys(h, names[..n]).1
  }

  lemma NextKeyLetGo(start: Held, names: seq<Key>, n: nat, h: Held, events: seq<Event>)
    requires n < |names| && KeysLeft(start, names, n + 1, h, events)
    ensures KeysLeft(start, names, n, FreeDone(h, names[n]), events + FreeEvents(h, names[n]))
  {
    assert names[..n + 1][..n] == names[..n];
    var rest := LetGoKeys(FreeDone(h, names[n]), names[..n]).1;
    assert events + (FreeEvents(h, names[n]) + rest) == (events + FreeEvents(h, names[n])) + rest;
  }

  lemma NothingDropped(keys: seq<Key>, k: Key)
    requires k !in keys
    ensures Dropped(keys, k) == keys
  {
  }

  /** The first loop of pressChord: the mask says which modifiers are down already. */
  method PressModifiers(modifiers: seq<Key>, start: ModifierMask, ghost down: set<Key>)
    returns (events: seq<Event>, pressed: seq<Key>, mask: ModifierMask)
    requires start == MaskOf(down) && forall k <- modifiers :: IsModifier(k)
    ensures pressed == ToPress(down, modifiers)
    ensures events == ModifierDowns(down, pressed)
    ensures mask == MaskOf(down + KeySet(pressed))
  {
    events, pressed, mask := [], [], start;
    assert down + KeySet([]) == down;
    for i := 0 to |modifiers|
      invariant pressed == ToPress(down, modifiers[..i])
      invariant events == ModifierDowns(down, pressed)
      invariant mask == MaskOf(down + KeySet(pressed))
    {
      var k := modifiers[i];
      assert modifiers[..i + 1][..i] == modifiers[..i];
      MaskTracksSet(down + KeySet(pressed), k);
      if mask.Has(ModifierBit(k)) {
        continue;
      }
      KeySetAppend(pressed, k);
      assert down + KeySet(pressed) + {k} == down + KeySet(pressed + [k]);
      mask := mask.Or(ModifierBit(k));
      events := events + [KeyDown(k, mask)];
      assert (pressed + [k])[..|pressed|] == pressed;
      pressed := pressed + [k];
    }
    assert modifiers[..|modifiers|] == modifiers;
  }

  method StrokeKey(k: Key, mask: ModifierMask, times: nat) returns (events: seq<Event>)
    ensures events == Strokes(k, mask, times)
  {
    events := [];
    for i := 0 to times
      invariant events == Strokes(k, mask, i)
    {
      events := events + [KeyDown(k, mask)];
      events := events + [KeyUp(k, mask)];
    }
  }

  lemma LastReleased(pressed: seq<Key>, n: nat, down: set<Key>)
    requires n < |pressed| && Distinct(pressed) && KeySet(pressed) !! down && IsModifier(pressed[n])
    ensures MaskOf(down + KeySet(pressed[..n + 1])).Clear(ModifierBit(pressed[n])) ==
            MaskOf(down + KeySet(pressed[..n]))
    ensures ModifierUps(down, pressed[..n + 1]) ==
            [KeyUp(pressed[n], MaskOf(down + KeySet(pressed[..n])))] + ModifierUps(down, pressed[..n])
  {
    var k := pressed[n];
    assert pressed[..n + 1] == pressed[..n] + [k] && pressed[..n + 1][..n] == pressed[..n];
    KeySetAppend(pressed[..n], k);
    MaskTracksSet(down + KeySet(pressed[..n + 1]), k);
    assert k in KeySet(pressed) && k !in pressed[..n];
    assert down + KeySet(pressed[..n + 1]) - {k} == down + KeySet(pressed[..n]);
  }

  /** The last loop of pressChord. */
  method ReleaseModifiers(pressed: seq<Key>, start: ModifierMask, ghost down: set<Key>) returns (events: seq<Event>)
    requires Distinct(pressed) && KeySet(pressed) !! down && start == MaskOf(down + KeySet(pressed))
    requires forall k <- pressed :: IsModifier(k)
    ensures events == ModifierUps(down, pressed)
  {
    events := [];
    var mask := start;
    var n := |pressed|;
    assert pressed[..n] == pressed;
    while n > 0
      invariant n <= |pressed|
      invariant ReleasesLeft(pressed, n, down, mask, events)
    {
      n := n - 1;
      NextRelease(pressed, n, down, mask, events);
      mask := mask.Clear(ModifierBit(pressed[n]));
      events := events + [KeyUp(pressed[n], mask)];
    }
    assert pressed[..0] == [] && events + [] == events;
  }

  /** The first n modifiers remain to be released, and are what the mask counts. */
  ghost predicate ReleasesLeft(pressed: seq<Key>, n: nat, down: set<Key>, mask: ModifierMask, events: seq<Event>)
    requires n <= |pressed|
  {
    && mask == MaskOf(down + KeySet(pressed[..n]))
    && events + ModifierUps(down, pressed[..n]) == ModifierUps(down, pressed)
  }

  lemma NextRelease(pressed: seq<Key>, n: nat, down: set<Key>, mask: ModifierMask, events: seq<Event>)
    requires n < |pressed| && Distinct(pressed) && KeySet(pressed) !! down && IsModifier(pressed[n])
    requires ReleasesLeft(pressed, n + 1, down, mask, events)
    ensures var cleared := mask.Clear(ModifierBit(pressed[n]));
            ReleasesLeft(pressed, n, down, cleared, events + [KeyUp(pressed[n], cleared)])
  {
    LastReleased(pressed, n, down);
    var up, rest := KeyUp(pressed[n], mask.Clear(ModifierBit(pressed[n]))), ModifierUps(down, pressed[..n]);
    assert events + ([up] + rest) == (events + [up]) + rest;
  }
}
