/** Key chords (src/agent-tools/keys.ts, parseChord, splitChord, modifierMask). A key is its
    canonical name, as keySpecFor resolves it. */
module Keys {
  import opened Basics

  type Key = string
  /** A bit mask, bit by bit. */
  datatype ModifierMask = ModifierMask(alt: bool, control: bool, meta: bool, shift: bool)
  {
    /** `|` */
    function Or(m: ModifierMask): ModifierMask {
      ModifierMask(alt || m.alt, control || m.control, meta || m.meta, shift || m.shift)
    }

    /** `& ~` */
    function Clear(m: ModifierMask): ModifierMask {
      ModifierMask(alt && !m.alt, control && !m.control, meta && !m.meta, shift && !m.shift)
    }

    /** `&`, not zero */
    predicate Has(m: ModifierMask) {
      (alt && m.alt) || (control && m.control) || (meta && m.meta) || (shift && m.shift)
    }

    /** The number itself. */
    function Word(): bv4 {
      (if alt then 1 else 0) | (if control then 2 else 0) | (if meta then 4 else 0) | (if shift then 8 else 0)
    }
  }

  const NO_MODIFIERS := ModifierMask(false, false, false, false)

  /** The operations on masks are those on their numbers, and a number determines its mask. */
  lemma ModifierWords(a: ModifierMask, b: ModifierMask)
    ensures a.Or(b).Word() == a.Word() | b.Word()
    ensures a.Clear(b).Word() == a.Word() & !b.Word()
    ensures a.Has(b) <==> a.Word() & b.Word() != 0
    ensures a.Word() == b.Word() ==> a == b
    ensures NO_MODIFIERS.Word() == 0
  {
  }

  predicate IsModifier(k: Key) {
    k == "Alt" || k == "Control" || k == "Meta" || k == "Shift"
  }

  function ModifierBit(k: Key): ModifierMask
    requires IsModifier(k)
  {
    ModifierMask(k == "Alt", k == "Control", k == "Meta", k == "Shift")
  }

  /** The mask that a set of keys that are down amounts to. */
  ghost function MaskOf(keys: set<Key>): ModifierMask {
    ModifierMask("Alt" in keys, "Control" in keys, "Meta" in keys, "Shift" in keys)
  }

  ghost function KeySet(keys: seq<Key>): set<Key> {
    set k | k in keys
  }

  lemma KeySetAppend(keys: seq<Key>, k: Key)
    ensures KeySet(keys + [k]) == KeySet(keys) + {k}
  {
  }

  lemma KeySetPrepend(k: Key, keys: seq<Key>)
    ensures KeySet([k] + keys) == {k} + KeySet(keys)
  {
  }

  lemma NoKeys(keys: seq<Key>)
    ensures KeySet(keys) == {} <==> keys == []
  {
    if keys != [] {
      assert keys[0] in KeySet(keys);
    }
  }

  lemma SameModifiers(a: set<Key>, b: set<Key>)
    requires forall k :: IsModifier(k) ==> (k in a <==> k in b)
    ensures MaskOf(a) == MaskOf(b)
  {
  }

  /** Setting, clearing and testing a modifier's bit is adding, removing and looking up the key. */
  lemma MaskTracksSet(keys: set<Key>, k: Key)
    requires IsModifier(k)
    ensures MaskOf(keys).Or(ModifierBit(k)) == MaskOf(keys + {k})
    ensures MaskOf(keys).Clear(ModifierBit(k)) == MaskOf(keys - {k})
    ensures MaskOf(keys).Has(ModifierBit(k)) <==> k in keys
  {
  }

  lemma OtherKeysDoNotMask(keys: set<Key>, k: Key)
    requires !IsModifier(k)
    ensures MaskOf(keys + {k}) == MaskOf(keys) == MaskOf(keys - {k})
  {
  }

  method ModifierMaskOf(modifiers: seq<Key>) returns (mask: ModifierMask)
    requires forall k <- modifiers :: IsModifier(k)
    ensures mask == MaskOf(KeySet(modifiers))
  {
    mask := NO_MODIFIERS;
    for i := 0 to |modifiers|
      invariant mask == MaskOf(KeySet(modifiers[..i]))
    {
      MaskTracksSet(KeySet(modifiers[..i]), modifiers[i]);
      KeySetAppend(modifiers[..i], modifiers[i]);
      assert modifiers[..i + 1] == modifiers[..i] + [modifiers[i]];
      mask := mask.Or(ModifierBit(modifiers[i]));
    }
    assert modifiers[..|modifiers|] == modifiers;
  }

  // ---------------------------------------------------------------- parsing a chord

  datatype Chord = Chord(modifiers: seq<Key>, key: Option<Key>)
  datatype ChordError = Empty | TwoKeys

  /** The distinct modifiers among the parts, in order of first mention. */
  function ModifiersOf(parts: seq<Key>): seq<Key> {
    if parts == [] then [] else
      var before := ModifiersOf(parts[..|parts| - 1]);
      var k := parts[|parts| - 1];
      if IsModifier(k) && k !in before then before + [k] else before
  }

  function PlainKeysOf(parts: seq<Key>): seq<Key> {
    if parts == [] then [] else
      var before := PlainKeysOf(parts[..|parts| - 1]);
      var k := parts[|parts| - 1];
      if IsModifier(k) then before else before + [k]
  }

  /** A part on its own is the key even when it is a modifier. */
  function Parsed(parts: seq<Key>): Result<Chord, ChordError> {
    if parts == [] then Err(Empty)
    else if |parts| == 1 then Ok(Chord([], Some(parts[0])))
    else if 1 < |PlainKeysOf(parts)| then Err(TwoKeys)
    else Ok(Chord(ModifiersOf(parts), if PlainKeysOf(parts) == [] then None else Some(PlainKeysOf(parts)[0])))
  }

  lemma {:induction false} PlainKeysGrow(parts: seq<Key>, i: nat)
    requires i <= |parts|
    ensures |PlainKeysOf(parts[..i])| <= |PlainKeysOf(parts)|
    decreases |parts| - i
  {
    if i == |parts| {
      assert parts[..i] == parts;
    } else {
      assert parts[..i + 1][..i] == parts[..i];
      PlainKeysGrow(parts, i + 1);
    }
  }

  method ParseChord(parts: seq<Key>) returns (r: Result<Chord, ChordError>)
    ensures r == Parsed(parts)
  {
    if |parts| == 0 {
      return Err(Empty);
    }
    var modifiers: seq<Key> := [];
    var key: Option<Key> := None;
    for i := 0 to |parts|
      invariant |parts| == 1 && i == 1 ==> modifiers == [] && key == Some(parts[0])
      invariant 1 < |parts| || i == 0 ==> modifiers == ModifiersOf(parts[..i])
      invariant 1 < |parts| || i == 0 ==> PlainKeysOf(parts[..i]) == if key.Some? then [key.value] else []
    {
      assert parts[..i + 1][..i] == parts[..i];
      if IsModifier(parts[i]) && (i < |parts| - 1 || |parts| > 1) {
        if parts[i] !in modifiers {
          modifiers := modifiers + [parts[i]];
        }
        continue;
      }
      if key.Some? {
        PlainKeysGrow(parts, i + 1);
        return Err(TwoKeys);
      }
      key := Some(parts[i]);
    }
    assert parts[..|parts|] == parts;
    return Ok(Chord(modifiers, key));
  }

  ghost predicate Distinct(keys: seq<Key>) {
    forall i, j :: 0 <= i < j < |keys| ==> keys[i] != keys[j]
  }

  lemma {:induction false} ModifiersMeaning(parts: seq<Key>)
    ensures Distinct(ModifiersOf(parts))
    ensures forall k :: k in ModifiersOf(parts) <==> k in parts && IsModifier(k)
  {
    if parts != [] {
      ModifiersMeaning(parts[..|parts| - 1]);
      assert parts == parts[..|parts| - 1] + [parts[|parts| - 1]];
    }
  }

  lemma {:induction false} PlainKeysMeaning(parts: seq<Key>)
    ensures forall k :: k in PlainKeysOf(parts) <==> k in parts && !IsModifier(k)
    ensures 1 < |PlainKeysOf(parts)| <==>
            exists i, j :: 0 <= i < j < |parts| && !IsModifier(parts[i]) && !IsModifier(parts[j])
  {
    if parts != [] {
      var n := |parts| - 1;
      PlainKeysMeaning(parts[..n]);
      assert parts == parts[..n] + [parts[n]];
      if 1 < |PlainKeysOf(parts)| {
        if 1 < |PlainKeysOf(parts[..n])| {
          var i, j :| 0 <= i < j < n && !IsModifier(parts[..n][i]) && !IsModifier(parts[..n][j]);
          assert !IsModifier(parts[i]) && !IsModifier(parts[j]);
        } else {
          var k := PlainKeysOf(parts[..n])[0];
          assert k in PlainKeysOf(parts[..n]);
          var i :| 0 <= i < n && parts[..n][i] == k;
          assert !IsModifier(parts[i]) && !IsModifier(parts[n]);
        }
      }
      forall i, j | 0 <= i < j < |parts| && !IsModifier(parts[i]) && !IsModifier(parts[j])
        ensures 1 < |PlainKeysOf(parts)|
      {
        assert parts[..n][i] == parts[i];
        if j < n {
          assert parts[..n][j] == parts[j];
        }
      }
    }
  }

  /** A chord is refused exactly when it is empty or names two non-modifier keys, be they equal.
      Of several parts, the modifiers are pressed once each and the one other key, if any, is the key. */
  lemma ChordMeaning(parts: seq<Key>)
    ensures Parsed(parts).Err? <==>
            parts == [] || exists i, j :: 0 <= i < j < |parts| && !IsModifier(parts[i]) && !IsModifier(parts[j])
    ensures Parsed(parts).Ok? ==>
              var c := Parsed(parts).value;
              && Distinct(c.modifiers) && (forall k <- c.modifiers :: IsModifier(k))
              && KeySet(c.modifiers) + (if c.key.Some? then {c.key.value} else {}) == KeySet(parts)
              && (c.key.Some? && IsModifier(c.key.value) ==> |parts| == 1 && c.modifiers == [])
  {
    ModifiersMeaning(parts);
    PlainKeysMeaning(parts);
    if |parts| > 1 && |PlainKeysOf(parts)| == 1 {
      assert forall k :: k in PlainKeysOf(parts) <==> k == PlainKeysOf(parts)[0];
    }
  }

  lemma {:induction false} AllModifiers(parts: seq<Key>)
    requires forall i :: 0 <= i < |parts| ==> IsModifier(parts[i])
    ensures PlainKeysOf(parts) == []
  {
    if parts != [] {
      AllModifiers(parts[..|parts| - 1]);
    }
  }

  /** The comment says that a chord made of modifiers only has no key. It has none exactly if it has
      several parts: of a single one the modifier is the key. */
  lemma ModifiersOnlyHasNoKeyIff(parts: seq<Key>)
    requires parts != [] && forall i :: 0 <= i < |parts| ==> IsModifier(parts[i])
    ensures Parsed(parts).Ok? && (Parsed(parts).value.key == None <==> 1 < |parts|)
  {
    AllModifiers(parts);
  }

  // ---------------------------------------------------------------- splitting a chord

  /** What `trim` removes. */
  predicate IsSpace(c: char) {
    || '\t' <= c <= '\r' || c == ' ' || c == '\U{A0}' || c == '\U{1680}' || '\U{2000}' <= c <= '\U{200A}'
    || c == '\U{2028}' || c == '\U{2029}' || c == '\U{202F}' || c == '\U{205F}' || c == '\U{3000}' || c == '\U{FEFF}'
  }

  function Trim(s: string): string {
    if s == "" then s
    else if IsSpace(s[0]) then Trim(s[1..])
    else if IsSpace(s[|s| - 1]) then Trim(s[..|s| - 1])
    else s
  }

  /** `s.split("+")`. */
  function SplitAtPlus(s: string): (parts: seq<string>)
    ensures |parts| > 0
  {
    if s == "" then [""]
    else if s[0] == '+' then [""] + SplitAtPlus(s[1..])
    else
      var rest := SplitAtPlus(s[1..]);
      [[s[0]] + rest[0]] + rest[1..]
  }

  /** Two empty pieces in a row stand for the plus key; other empty pieces are dropped. */
  function Regrouped(pieces: seq<string>): seq<string> {
    if pieces == [] then []
    else if pieces[0] != "" then [pieces[0]] + Regrouped(pieces[1..])
    else if |pieces| > 1 && pieces[1] == "" then ["+"] + Regrouped(pieces[2..])
    else Regrouped(pieces[1..])
  }

  function Split(input: string): seq<string> {
    if Trim(input) == "+" then ["+"] else Regrouped(SplitAtPlus(Trim(input)))
  }

  method SplitChord(input: string) returns (out: seq<string>)
    ensures out == Split(input)
  {
    var trimmed := Trim(input);
    if trimmed == "+" {
      return ["+"];
    }
    var parts := SplitAtPlus(trimmed);
    out := [];
    var i := 0;
    assert parts[0..] == parts;
    while i < |parts|
      invariant 0 <= i <= |parts|
      invariant PiecesLeft(parts, i, out)
    {
      NextPiece(parts, i, out);
      if parts[i] == "" && i + 1 < |parts| && parts[i + 1] == "" {
        out := out + ["+"];
        i := i + 1;
      } else if parts[i] != "" {
        out := out + [parts[i]];
      }
      i := i + 1;
    }
    assert out == Regrouped(parts) by { assert parts[|parts|..] == [] && out + [] == out; }
  }

  /** The pieces from the i-th on remain to be regrouped. */
  ghost predicate PiecesLeft(parts: seq<string>, i: nat, out: seq<string>)
    requires i <= |parts|
  {
    out + Regrouped(parts[i..]) == Regrouped(parts)
  }

  /** What one round of the loop takes off the pieces. */
  lemma NextPiece(parts: seq<string>, i: nat, out: seq<string>)
    requires i < |parts| && PiecesLeft(parts, i, out)
    ensures if parts[i] != "" then PiecesLeft(parts, i + 1, out + [parts[i]])
            else if i + 1 < |parts| && parts[i + 1] == "" then PiecesLeft(parts, i + 2, out + ["+"])
            else PiecesLeft(parts, i + 1, out)
  {
    var rest := parts[i..];
    assert rest[1..] == parts[i + 1..];
    if parts[i] != "" {
      assert out + ([parts[i]] + Regrouped(rest[1..])) == (out + [parts[i]]) + Regrouped(rest[1..]);
    } else if i + 1 < |parts| && parts[i + 1] == "" {
      assert rest[2..] == parts[i + 2..] && rest[1] == "";
      assert out + (["+"] + Regrouped(rest[2..])) == (out + ["+"]) + Regrouped(rest[2..]);
    }
  }

  /** How a chord is written: the parts with a plus between. */
  function Joined(parts: seq<string>): string {
    if parts == [] then "" else if |parts| == 1 then parts[0] else parts[0] + "+" + Joined(parts[1..])
  }

  /** A part as a chord may contain it: the plus key, or a name without plus signs and blanks. */
  predicate Writable(part: string) {
    part == "+" || (part != "" && forall i :: 0 <= i < |part| ==> part[i] != '+' && !IsSpace(part[i]))
  }

  lemma {:induction false} SplitName(name: string, rest: string)
    requires forall i :: 0 <= i < |name| ==> name[i] != '+'
    ensures SplitAtPlus(name) == [name]
    ensures SplitAtPlus(name + "+" + rest) == [name] + SplitAtPlus(rest)
  {
    if name == "" {
      assert ("+" + rest)[1..] == rest;
      assert name + "+" + rest == "+" + rest;
      assert SplitAtPlus("") == [name];
      assert ("+" + rest)[0] == '+';
    } else {
      SplitName(name[1..], rest);
      assert (name + "+" + rest)[1..] == name[1..] + "+" + rest;
      assert [name[0]] + name[1..] == name;
    }
  }

  lemma {:induction false} RegroupJoined(parts: seq<string>)
    requires parts != [] && forall p <- parts :: Writable(p)
    ensures Regrouped(SplitAtPlus(Joined(parts))) == parts
  {
    var p := parts[0];
    assert Writable(p);
    if |parts| == 1 {
      if p == "+" {
        assert SplitAtPlus("+") == ["", ""];
        assert parts == ["+"];
      } else {
        SplitName(p, "");
        assert parts == [p];
      }
    } else {
      var rest := Joined(parts[1..]);
      var pieces := SplitAtPlus(rest);
      RegroupJoined(parts[1..]);
      assert parts == [p] + parts[1..];
      if p == "+" {
        assert Joined(parts)[1..] == "+" + rest && ("+" + rest)[1..] == rest;
        assert SplitAtPlus(Joined(parts)) == [""] + ([""] + pieces);
        assert ([""] + ([""] + pieces))[2..] == pieces;
      } else {
        assert Joined(parts) == p + "+" + rest;
        SplitName(p, rest);
        assert ([p] + pieces)[1..] == pieces;
      }
    }
  }

  lemma {:induction false} JoinedEnds(parts: seq<string>)
    requires parts != [] && forall p <- parts :: Writable(p)
    ensures var s := Joined(parts); s != "" && !IsSpace(s[0]) && !IsSpace(s[|s| - 1])
  {
    assert Writable(parts[0]);
    if |parts| > 1 {
      JoinedEnds(parts[1..]);
    }
  }

  /** Writing a chord's parts with plus signs between and splitting it again loses nothing, even
      where the plus key itself is one of the parts. */
  lemma SplitRoundTrip(parts: seq<string>)
    requires parts != [] && forall p <- parts :: Writable(p)
    ensures Split(Joined(parts)) == parts
  {
    JoinedEnds(parts);
    RegroupJoined(parts);
    if Joined(parts) == "+" {
      assert SplitAtPlus("+") == ["", ""];
    }
  }
}
