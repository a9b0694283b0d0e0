/** The gestures event by event: how often a click clicks, which way a drag goes, how often a key
    is struck. */
module Gestures {
  import opened Basics
  import opened Keys
  import opened Input

  lemma {:induction false} ClicksAt(at: Point, button: Button, n: nat, held: ButtonMask, rest: ButtonMask,
                                    modifiers: ModifierMask, i: nat)
    requires i < n
    ensures var es := Clicks(at, button, n, held, rest, modifiers);
            && |es| == 2 * n
            && es[2 * i] == Pressed(at, button, i + 1, held, modifiers)
            && es[2 * i + 1] == Released(at, button, i + 1, rest, modifiers)
  {
    if n == 1 {
      assert Clicks(at, button, 0, held, rest, modifiers) == [];
    } else if i < n - 1 {
      ClicksAt(at, button, n - 1, held, rest, modifiers, i);
    } else {
      ClicksAt(at, button, n - 1, held, rest, modifiers, 0);
    }
  }

  /** A click moves there, then presses and releases the button once, twice or three times; the i-th
      of these says that it is the i-th. */
  lemma ClickMeaning(h: Held, at: Point, button: Button, count: int, extra: seq<Key>, i: nat)
    requires i < 1 || (i < count && i < 3)
    ensures var (done, es) := Step(h, Click(at, button, count, extra));
            && |es| == 1 + 2 * (if count < 1 then 1 else if 3 < count then 3 else count)
            && es[0].Moved? && es[0].point == at && es[0].buttons == h.buttons
            && es[2 * i + 1].Pressed? && es[2 * i + 1].button == button
            && es[2 * i + 1].clickCount == i + 1 && es[2 * i + 1].point == at
            && es[2 * i + 2].Released? && es[2 * i + 2].button == button
            && es[2 * i + 2].clickCount == i + 1 && es[2 * i + 2].point == at
            && done == h.(position := at)
  {
    var modifiers := Mods(h).Or(MaskOf(KeySet(extra)));
    var n: nat := Clamp(count, 1, 3);
    ClicksAt(at, button, n, h.buttons.Or(ButtonBit(button)), h.buttons, modifiers, i);
  }

  /** Besides presses and releases a mouse event names a button exactly if some is held, and then one
      that is. */
  lemma HeldButtonMeaning(s: set<Button>)
    ensures HeldButton(ButtonsMask(s)).None? <==> s == {}
    ensures HeldButton(ButtonsMask(s)).Some? ==> HeldButton(ButtonsMask(s)).value in s
    ensures Left in s ==> HeldButton(ButtonsMask(s)) == Some(Left)
  {
    if s != {} {
      var b :| b in s;
      assert b == Left || b == Right || b == Middle;
    }
  }

  /** The point i of n equal steps from the origin to the target. */
  predicate OnTheWay(p: Point, origin: Point, target: Point, i: nat, n: nat) {
    && (p.x - origin.x) * n as real == (target.x - origin.x) * i as real
    && (p.y - origin.y) * n as real == (target.y - origin.y) * i as real
  }

  lemma CoordinateOnTheWay(from: real, to: real, i: real, n: real)
    requires 0.0 < n
    ensures (from + (to - from) * i / n - from) * n == (to - from) * i
  {
    var way := (to - from) * i;
    assert way / n * n == way;
  }

  lemma CoordinateArrives(from: real, to: real, n: real)
    requires 0.0 < n
    ensures from + (to - from) * n / n == to
  {
    var way := to - from;
    assert way * n / n == way;
  }

  lemma BetweenIsOnTheWay(origin: Point, target: Point, i: nat, n: nat)
    requires 0 < n
    ensures OnTheWay(Between(origin, target, i, n), origin, target, i, n)
  {
    CoordinateOnTheWay(origin.x, target.x, i as real, n as real);
    CoordinateOnTheWay(origin.y, target.y, i as real, n as real);
  }

  lemma BetweenArrives(origin: Point, target: Point, n: nat)
    requires 0 < n
    ensures Between(origin, target, n, n) == target
  {
    CoordinateArrives(origin.x, target.x, n as real);
    CoordinateArrives(origin.y, target.y, n as real);
  }

  lemma {:induction false} DragMovesAt(h: Held, origin: Point, target: Point, steps: nat, n: nat, i: nat)
    requires i < n <= steps
    ensures var es := DragMoves(h, origin, target, steps, n);
            |es| == n && es[i] == Moved(Between(origin, target, i + 1, steps), Some(Left), h.buttons, Mods(h))
  {
    if n == 1 {
      assert DragMoves(h, origin, target, steps, 0) == [];
    } else if i < n - 1 {
      DragMovesAt(h, origin, target, steps, n - 1, i);
    } else {
      DragMovesAt(h, origin, target, steps, n - 1, 0);
    }
  }

  /** A drag presses the left button where it starts, moves on by the same share of the way each step,
      arriving exactly at the target with the last, and lets go there. */
  lemma DragMeaning(h: Held, origin: Point, target: Point, steps: nat, i: nat)
    requires 0 < i <= steps
    ensures var es := DragEvents(h, origin, target, steps);
            && |es| == steps + 3
            && es[0].Moved? && es[0].point == origin
            && es[1].Pressed? && es[1].button == Left && es[1].point == origin
            && es[i + 1].Moved? && es[i + 1].carried == Some(Left)
            && OnTheWay(es[i + 1].point, origin, target, i, steps)
            && (i == steps ==> es[i + 1].point == target)
            && es[steps + 2].Released? && es[steps + 2].button == Left && es[steps + 2].point == target
  {
    DragMovesAt(PressDone(h, origin, Left), origin, target, steps, steps, i - 1);
    BetweenIsOnTheWay(origin, target, i, steps);
    BetweenArrives(origin, target, steps);
  }

  /** How often a key goes down. */
  ghost function Occurrences(es: seq<Event>, wanted: Key): nat {
    if es == [] then 0 else
      Occurrences(es[..|es| - 1], wanted) +
      if es[|es| - 1].KeyDown? && es[|es| - 1].key == wanted then 1 else 0
  }

  lemma {:induction false} OccurrencesApart(a: seq<Event>, b: seq<Event>, wanted: Key)
    ensures Occurrences(a + b, wanted) == Occurrences(a, wanted) + Occurrences(b, wanted)
  {
    if b == [] {
      assert a + b == a;
    } else {
      assert (a + b)[..|a + b| - 1] == a + b[..|b| - 1];
      OccurrencesApart(a, b[..|b| - 1], wanted);
    }
  }

  lemma {:induction false} StrokesCount(k: Key, mask: ModifierMask, n: nat)
    ensures Occurrences(Strokes(k, mask, n), k) == n
  {
    if n != 0 {
      var before := Strokes(k, mask, n - 1);
      StrokesCount(k, mask, n - 1);
      OccurrencesApart(before, [KeyDown(k, mask)], k);
      OccurrencesApart(before + [KeyDown(k, mask)], [KeyUp(k, mask)], k);
      assert Occurrences([KeyDown(k, mask)], k) == 1 && Occurrences([KeyUp(k, mask)], k) == 0;
    }
  }

  lemma {:induction false} ModifiersStrikeNot(down: set<Key>, pressed: seq<Key>, wanted: Key)
    requires wanted !in pressed
    ensures Occurrences(ModifierDowns(down, pressed), wanted) == 0
    ensures Occurrences(ModifierUps(down, pressed), wanted) == 0
  {
    if pressed != [] {
      var n := |pressed| - 1;
      ModifiersStrikeNot(down, pressed[..n], wanted);
      var up := KeyUp(pressed[n], MaskOf(down + KeySet(pressed[..n])));
      OccurrencesApart([up], ModifierUps(down, pressed[..n]), wanted);
      assert Occurrences([up], wanted) == 0;
    }
  }

  /** A chord strikes its key as often as asked, at least once and at most a hundred times. */
  lemma ChordStrikes(down: set<Key>, chord: Chord, repeat: int)
    requires chord.key.Some? && chord.key.value !in chord.modifiers
    ensures Occurrences(ChordEvents(down, chord, repeat), chord.key.value) ==
            if repeat < 1 then 1 else if 100 < repeat then 100 else repeat
  {
    var k, pressed := chord.key.value, ToPress(down, chord.modifiers);
    var mask, n := MaskOf(down + KeySet(pressed)), Clamp(repeat, 1, 100);
    PressesOnlyModifiers(down, chord.modifiers);
    ModifiersStrikeNot(down, pressed, k);
    StrokesCount(k, mask, n);
    OccurrencesApart(ModifierDowns(down, pressed), Strokes(k, mask, n), k);
    OccurrencesApart(ModifierDowns(down, pressed) + Strokes(k, mask, n), ModifierUps(down, pressed), k);
  }

  lemma {:induction false} PressesOnlyModifiers(down: set<Key>, modifiers: seq<Key>)
    ensures forall k :: k in ToPress(down, modifiers) ==> k in modifiers
  {
    if modifiers != [] {
      PressesOnlyModifiers(down, modifiers[..|modifiers| - 1]);
    }
  }

  // ---------------------------------------------------------------- the order of modifiers

  function FirstIndex(keys: seq<Key>, k: Key): nat {
    if keys == [] || keys[0] == k then 0 else 1 + FirstIndex(keys[1..], k)
  }

  lemma {:induction false} FirstIndexAppend(keys: seq<Key>, x: Key, k: Key)
    ensures k in keys ==> FirstIndex(keys, k) < |keys| && FirstIndex(keys + [x], k) == FirstIndex(keys, k)
    ensures k !in keys ==> FirstIndex(keys, k) == |keys| && FirstIndex(keys + [k], k) == |keys|
  {
    if keys != [] {
      assert (keys + [x])[1..] == keys[1..] + [x] && (keys + [k])[1..] == keys[1..] + [k];
      FirstIndexAppend(keys[1..], x, k);
    }
  }

  /** Each named, and in the order they are named first. */
  predicate InOrderOf(some: seq<Key>, keys: seq<Key>) {
    && (forall i :: 0 <= i < |some| ==> some[i] in keys)
    && (forall i, j :: 0 <= i < j < |some| ==> FirstIndex(keys, some[i]) < FirstIndex(keys, some[j]))
  }

  lemma OrderedAppend(some: seq<Key>, keys: seq<Key>, k: Key)
    requires InOrderOf(some, keys)
    ensures InOrderOf(some, keys + [k])
    ensures k !in keys ==> InOrderOf(some + [k], keys + [k])
  {
    forall i | 0 <= i < |some|
      ensures FirstIndex(keys + [k], some[i]) == FirstIndex(keys, some[i]) < |keys|
    {
      FirstIndexAppend(keys, k, some[i]);
    }
    if k !in keys {
      FirstIndexAppend(keys, k, k);
    }
  }

  /** The modifiers of a chord are those named, in the order they are named. */
  lemma {:induction false} ModifiersInOrder(parts: seq<Key>)
    ensures InOrderOf(ModifiersOf(parts), parts)
    ensures forall k :: k in ModifiersOf(parts) <==> k in parts && IsModifier(k)
  {
    if parts != [] {
      var front, last := parts[..|parts| - 1], parts[|parts| - 1];
      assert parts == front + [last];
      ModifiersInOrder(front);
      OrderedAppend(ModifiersOf(front), front, last);
    }
  }

  /** They are pressed in that order, but for those that are down already. */
  lemma {:induction false} PressedInOrder(down: set<Key>, modifiers: seq<Key>)
    ensures InOrderOf(ToPress(down, modifiers), modifiers)
    ensures forall k :: k in ToPress(down, modifiers) <==> k in modifiers && k !in down
  {
    if modifiers != [] {
      var front, last := modifiers[..|modifiers| - 1], modifiers[|modifiers| - 1];
      assert modifiers == front + [last];
      PressedInOrder(down, front);
      OrderedAppend(ToPress(down, front), front, last);
    }
  }

  /** Moving and scrolling send one event with the place, and scrolling the two distances, asked for;
      pressing moves there and presses once; releasing moves only if the pointer is elsewhere. */
  lemma PointerMeaning(h: Held, at: Point, button: Button, deltaX: real, deltaY: real)
    ensures var (done, es) := Step(h, Move(at));
            |es| == 1 && es[0].Moved? && es[0].point == at && done == h.(position := at)
    ensures var (done, es) := Step(h, Scroll(at, deltaX, deltaY));
            && |es| == 1 && es[0].Wheel? && es[0].point == at && es[0].deltaX == deltaX && es[0].deltaY == deltaY
            && done == h.(position := at)
    ensures var es := Step(h, Press(at, button)).1;
            && |es| == 2 && es[0].Moved? && es[0].point == at
            && es[1].Pressed? && es[1].point == at && es[1].button == button && es[1].clickCount == 1
    ensures var es := Step(h, Release(at, button)).1;
            var last := |es| - 1;
            && |es| == (if at == h.position then 1 else 2)
            && es[last].Released? && es[last].point == at && es[last].button == button && es[last].clickCount == 1
            && (at != h.position ==> es[0].Moved? && es[0].point == at)
  {
  }

  /** Holding and freeing a key send one event exactly if they change what is held. */
  lemma HoldMeaning(h: Held, k: Key)
    ensures var (done, es) := Step(h, HoldKey(k));
            && (k in h.keys ==> done == h && es == [])
            && (k !in h.keys ==> done == h.(keys := h.keys + [k]) && |es| == 1 && es[0].KeyDown? && es[0].key == k)
    ensures var es := Step(h, FreeKey(k)).1;
            && (k !in h.keys ==> es == [])
            && (k in h.keys ==> |es| == 1 && es[0].KeyUp? && es[0].key == k)
  {
  }
}
