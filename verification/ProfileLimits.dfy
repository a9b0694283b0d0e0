/** Size limits of a captured profile (src/core/profile/limits.ts) and the merge that feeds them
    (src/core/profile/save.ts). A timestamp is what Date.parse makes of lastVisitedAt; the length of
    the JSON text is the length without origins plus one entry per origin and the commas between. */
module ProfileLimits {
  import opened Basics
  import Sorting

  type Origin = string

  /** `entryBytes` is the length of the origin's own JSON entry, key included. */
  datatype OriginStorage = OriginStorage(content: string, lastVisitedAt: Option<int>, entryBytes: nat)

  datatype Entry = Entry(origin: Origin, data: OriginStorage)

  /** A storage object: its entries in insertion order, no origin twice. */
  type Storage = seq<Entry>

  predicate DistinctOrigins(s: Storage) {
    forall i, j :: 0 <= i < j < |s| ==> s[i].origin != s[j].origin
  }

  /** `baseBytes` is the length of the JSON text with no origins. */
  datatype Profile = Profile(baseBytes: nat, storage: Storage)

  datatype Caps = Caps(softWarnBytes: nat, hardCapBytes: nat, maxOrigins: nat)

  datatype EnforceResult = EnforceResult(profile: Profile, bytes: nat, evicted: seq<Origin>, softWarn: bool,
                                         refused: bool)

  function Visited(e: Entry): int {
    e.data.lastVisitedAt.GetOr(0)
  }

  function EntriesBytes(s: Storage): nat {
    if s == [] then 0 else EntriesBytes(s[..|s| - 1]) + s[|s| - 1].data.entryBytes
  }

  function SerializedSize(base: nat, s: Storage): nat {
    base + EntriesBytes(s) + Max(0, |s| - 1)
  }

  // ---------------------------------------------------------------- the oldest origin

  /** The first of the least recently visited entries. */
  function OldestIndex(s: Storage): (b: nat)
    requires s != []
    ensures b < |s|
    ensures forall j :: 0 <= j < |s| ==> Visited(s[b]) <= Visited(s[j])
    ensures forall j :: 0 <= j < b ==> Visited(s[b]) < Visited(s[j])
  {
    var n := |s| - 1;
    if n == 0 then 0 else
      var b := OldestIndex(s[..n]);
      assert forall j :: 0 <= j < n ==> s[..n][j] == s[j];
      if Visited(s[n]) < Visited(s[b]) then n else b
  }

  method PickOldestOrigin(s: Storage) returns (oldest: Option<nat>)
    ensures oldest == if s == [] then None else Some(OldestIndex(s))
  {
    oldest := None;
    for i := 0 to |s|
      invariant oldest == if i == 0 then None else Some(OldestIndex(s[..i]))
    {
      assert s[..i + 1][..i] == s[..i];
      if oldest.None? || Visited(s[i]) < Visited(s[oldest.value]) {
        oldest := Some(i);
      }
    }
    assert s[..|s|] == s;
  }

  function Without(s: Storage, i: nat): Storage
    requires i < |s|
  {
    s[..i] + s[i + 1..]
  }

  // ---------------------------------------------------------------- the two eviction phases

  function NewestFirst(a: Entry, b: Entry): real {
    (Visited(b) - Visited(a)) as real
  }

  function OriginsOf(s: Storage): set<Origin> {
    if s == [] then {} else OriginsOf(s[..|s| - 1]) + {s[|s| - 1].origin}
  }

  lemma {:induction false} OriginsMembers(s: Storage)
    ensures forall e :: e in s ==> e.origin in OriginsOf(s)
    ensures forall o :: o in OriginsOf(s) ==> exists e :: e in s && e.origin == o
  {
    if s != [] {
      OriginsMembers(s[..|s| - 1]);
      assert s == s[..|s| - 1] + [s[|s| - 1]];
    }
  }

  /** The origins the count cap keeps: the most recently visited ones. */
  function Keep(s: Storage, maxOrigins: nat): set<Origin> {
    if |s| <= maxOrigins then OriginsOf(s) else OriginsOf(Sorting.StableSort(s, NewestFirst)[..maxOrigins])
  }

  function Kept(s: Storage, keep: set<Origin>): Storage {
    if s == [] then [] else
      Kept(s[..|s| - 1], keep) + if s[|s| - 1].origin in keep then [s[|s| - 1]] else []
  }

  function EvictedFrom(s: Storage, keep: set<Origin>): seq<Origin> {
    if s == [] then [] else
      EvictedFrom(s[..|s| - 1], keep) + if s[|s| - 1].origin in keep then [] else [s[|s| - 1].origin]
  }

  /** The size loop: drops the oldest origin while the text is too long. An origin that is the
      empty string is falsy in the source and stops the loop. */
  function Trimmed(base: nat, cap: nat, s: Storage): Storage
    decreases |s|
  {
    if SerializedSize(base, s) <= cap || s == [] || s[OldestIndex(s)].origin == "" then s
    else Trimmed(base, cap, Without(s, OldestIndex(s)))
  }

  function Victims(base: nat, cap: nat, s: Storage): seq<Entry>
    decreases |s|
  {
    if SerializedSize(base, s) <= cap || s == [] || s[OldestIndex(s)].origin == "" then []
    else [s[OldestIndex(s)]] + Victims(base, cap, Without(s, OldestIndex(s)))
  }

  function Origins(s: seq<Entry>): (r: seq<Origin>)
    ensures |r| == |s| && forall i :: 0 <= i < |s| ==> r[i] == s[i].origin
  {
    seq(|s|, i requires 0 <= i < |s| => s[i].origin)
  }

  function Counted(p: Profile, caps: Caps): Storage {
    Kept(p.storage, Keep(p.storage, caps.maxOrigins))
  }

  function Enforced(p: Profile, caps: Caps): EnforceResult {
    var counted := Counted(p, caps);
    var final := Trimmed(p.baseBytes, caps.hardCapBytes, counted);
    var evicted := EvictedFrom(p.storage, Keep(p.storage, caps.maxOrigins)) +
                   Origins(Victims(p.baseBytes, caps.hardCapBytes, counted));
    var bytes := SerializedSize(p.baseBytes, final);
    if caps.hardCapBytes < bytes then EnforceResult(p, bytes, evicted, true, true)
    else EnforceResult(p.(storage := final), bytes, evicted, caps.softWarnBytes < bytes, false)
  }

  method EnforceProfileLimits(p: Profile, caps: Caps) returns (r: EnforceResult)
    ensures r == Enforced(p, caps)
  {
    var storage, evicted := EnforceCount(p.storage, caps.maxOrigins);
    var bytes;
    storage, bytes, evicted := TrimToCap(p.baseBytes, caps.hardCapBytes, storage, evicted);
    if bytes > caps.hardCapBytes {
      return EnforceResult(p, bytes, evicted, true, true);
    }
    return EnforceResult(p.(storage := storage), bytes, evicted, bytes > caps.softWarnBytes, false);
  }

  /** The size loop. */
  method TrimToCap(base: nat, cap: nat, start: Storage, early: seq<Origin>)
    returns (storage: Storage, bytes: nat, evicted: seq<Origin>)
    ensures storage == Trimmed(base, cap, start) && bytes == SerializedSize(base, storage)
    ensures evicted == early + Origins(Victims(base, cap, start))
  {
    storage, evicted := start, early;
    bytes := SerializedSize(base, storage);
    while bytes > cap && storage != []
      invariant bytes == SerializedSize(base, storage)
      invariant Trimmed(base, cap, start) == Trimmed(base, cap, storage)
      invariant early + Origins(Victims(base, cap, start)) == evicted + Origins(Victims(base, cap, storage))
      decreases |storage|
    {
      var oldest := PickOldestOrigin(storage);
      if storage[oldest.value].origin == "" {
        break;
      }
      VictimsStep(base, cap, storage);
      evicted := evicted + [storage[oldest.value].origin];
      storage := Without(storage, oldest.value);
      bytes := SerializedSize(base, storage);
    }
  }

  lemma VictimsStep(base: nat, cap: nat, s: Storage)
    requires cap < SerializedSize(base, s) && s != [] && s[OldestIndex(s)].origin != ""
    ensures var rest := Without(s, OldestIndex(s));
            && Trimmed(base, cap, s) == Trimmed(base, cap, rest)
            && Origins(Victims(base, cap, s)) == [s[OldestIndex(s)].origin] + Origins(Victims(base, cap, rest))
  {
  }

  /** The count cap. */
  method EnforceCount(s: Storage, maxOrigins: nat) returns (storage: Storage, evicted: seq<Origin>)
    ensures storage == Kept(s, Keep(s, maxOrigins)) && evicted == EvictedFrom(s, Keep(s, maxOrigins))
  {
    if |s| <= maxOrigins {
      OriginsMembers(s);
      KeepAll(s, OriginsOf(s));
      return s, [];
    }
    var ranked := Sorting.StableSort(s, NewestFirst);
    var keep := OriginsOf(ranked[..maxOrigins]);
    storage, evicted := [], [];
    for i := 0 to |s|
      invariant storage == Kept(s[..i], keep) && evicted == EvictedFrom(s[..i], keep)
    {
      assert s[..i + 1][..i] == s[..i];
      if s[i].origin in keep {
        storage := storage + [s[i]];
      } else {
        evicted := evicted + [s[i].origin];
      }
    }
    assert s[..|s|] == s;
  }

  lemma {:induction false} KeepAll(s: Storage, keep: set<Origin>)
    requires forall e :: e in s ==> e.origin in keep
    ensures Kept(s, keep) == s && EvictedFrom(s, keep) == []
  {
    if s != [] {
      var front, last := s[..|s| - 1], s[|s| - 1];
      assert s == front + [last];
      KeepAll(front, keep);
    }
  }

  // ---------------------------------------------------------------- facts about the count cap

  lemma {:induction false} KeptExactly(s: Storage, keep: set<Origin>)
    requires DistinctOrigins(s)
    ensures DistinctOrigins(Kept(s, keep))
    ensures forall e :: e in Kept(s, keep) <==> e in s && e.origin in keep
    ensures forall o :: o in EvictedFrom(s, keep) <==> o !in keep && exists e :: e in s && e.origin == o
  {
    if s != [] {
      var front, last := s[..|s| - 1], s[|s| - 1];
      KeptExactly(front, keep);
      assert s == front + [last];
      var k := Kept(front, keep);
      forall i | 0 <= i < |k| ensures k[i].origin != last.origin {
        assert k[i] in k;
        assert k[i] in front;
      }
    }
  }

  lemma {:induction false} DistinctCount(s: Storage)
    ensures |OriginsOf(s)| <= |s|
    ensures DistinctOrigins(s) ==> |OriginsOf(s)| == |s|
  {
    if s != [] {
      var front, last := s[..|s| - 1], s[|s| - 1];
      DistinctCount(front);
      OriginsMembers(front);
    }
  }

  lemma CardinalityMonotone(a: set<Origin>, b: set<Origin>)
    requires a <= b
    ensures |a| <= |b|
  {
    assert b == a + (b - a);
  }

  lemma RankedMembers(s: Storage)
    ensures forall e :: e in Sorting.StableSort(s, NewestFirst) <==> e in s
  {
    var ranked := Sorting.StableSort(s, NewestFirst);
    Sorting.SortKeepsElements(s, NewestFirst);
    forall e ensures e in ranked <==> e in s {
      assert e in ranked <==> e in multiset(ranked);
      assert e in s <==> e in multiset(s);
    }
  }

  /** In the ranking, whatever comes later is no newer. */
  lemma RankedDown(s: Storage, i: nat, j: nat)
    requires i < j < |s|
    ensures var ranked := Sorting.StableSort(s, NewestFirst); Visited(ranked[j]) <= Visited(ranked[i])
  {
    Sorting.SortSorts(s, NewestFirst);
    var ranked := Sorting.StableSort(s, NewestFirst);
    assert NewestFirst(ranked[i], ranked[j]) <= 0.0;
  }

  /** Nothing the count cap drops is newer than what it keeps. */
  lemma CountCap(s: Storage, maxOrigins: nat, gone: Entry, stays: Entry)
    requires DistinctOrigins(s)
    requires gone in s && gone.origin !in Keep(s, maxOrigins)
    requires stays in s && stays.origin in Keep(s, maxOrigins)
    ensures Visited(gone) <= Visited(stays)
  {
    OriginsMembers(s);
    RankedMembers(s);
    var ranked := Sorting.StableSort(s, NewestFirst);
    var top := ranked[..maxOrigins];
    OriginsMembers(top);
    var g :| 0 <= g < |ranked| && ranked[g] == gone;
    assert maxOrigins <= g by {
      forall i | 0 <= i < maxOrigins ensures ranked[i].origin in OriginsOf(top) {
        assert top[i] in top;
      }
    }
    var e :| e in top && e.origin == stays.origin;
    var k :| 0 <= k < maxOrigins && ranked[k] == e;
    assert ranked[k] in ranked;
    SameOriginSameEntry(s, e, stays);
    RankedDown(s, k, g);
  }

  lemma SameOriginSameEntry(s: Storage, a: Entry, b: Entry)
    requires DistinctOrigins(s) && a in s && b in s && a.origin == b.origin
    ensures a == b
  {
  }

  lemma KeptFits(s: Storage, maxOrigins: nat)
    requires DistinctOrigins(s)
    ensures |Kept(s, Keep(s, maxOrigins))| <= maxOrigins
  {
    var keep := Keep(s, maxOrigins);
    var kept := Kept(s, keep);
    KeptExactly(s, keep);
    DistinctCount(kept);
    OriginsMembers(kept);
    CardinalityMonotone(OriginsOf(kept), keep);
    DistinctCount(s);
    DistinctCount(Sorting.StableSort(s, NewestFirst)[..Min(maxOrigins, |s|)]);
  }

  // ---------------------------------------------------------------- facts about the size loop

  lemma {:induction false} BytesWithout(s: Storage, i: nat)
    requires i < |s|
    ensures EntriesBytes(Without(s, i)) + s[i].data.entryBytes == EntriesBytes(s)
  {
    var n := |s| - 1;
    if i == n {
      assert Without(s, i) == s[..n];
    } else {
      BytesWithout(s[..n], i);
      assert Without(s, i)[..n - 1] == Without(s[..n], i);
    }
  }

  lemma WithoutMembers(s: Storage, i: nat)
    requires DistinctOrigins(s) && i < |s|
    ensures DistinctOrigins(Without(s, i))
    ensures forall e :: e in Without(s, i) <==> e in s && e != s[i]
  {
  }

  /** The loop splits the storage into what stays and what goes; nothing that goes is newer. */
  lemma {:induction false} TrimSplits(base: nat, cap: nat, s: Storage)
    requires DistinctOrigins(s)
    ensures DistinctOrigins(Trimmed(base, cap, s)) && |Trimmed(base, cap, s)| <= |s|
    ensures forall e :: e in s <==> (e in Trimmed(base, cap, s) || e in Victims(base, cap, s))
    ensures forall e :: !(e in Trimmed(base, cap, s) && e in Victims(base, cap, s))
    ensures forall v, k :: v in Victims(base, cap, s) && k in Trimmed(base, cap, s) ==> Visited(v) <= Visited(k)
    decreases |s|
  {
    if cap < SerializedSize(base, s) && s != [] && s[OldestIndex(s)].origin != "" {
      var i := OldestIndex(s);
      WithoutMembers(s, i);
      TrimSplits(base, cap, Without(s, i));
    }
  }

  /** Minimality: with its last victim put back the profile would break the cap. */
  lemma {:induction false} LastVictimNeeded(base: nat, cap: nat, s: Storage)
    requires Victims(base, cap, s) != []
    ensures var v := Victims(base, cap, s);
            cap < SerializedSize(base, Trimmed(base, cap, s) + [v[|v| - 1]])
    decreases |s|
  {
    var i := OldestIndex(s);
    var rest := Without(s, i);
    if Victims(base, cap, rest) == [] {
      OneVictimNeeded(base, cap, s);
    } else {
      LastVictimNeeded(base, cap, rest);
    }
  }

  lemma OneVictimNeeded(base: nat, cap: nat, s: Storage)
    requires s != [] && cap < SerializedSize(base, s)
    ensures var i := OldestIndex(s); cap < SerializedSize(base, Without(s, i) + [s[i]])
  {
    var i := OldestIndex(s);
    var rest := Without(s, i);
    BytesWithout(s, i);
    assert (rest + [s[i]])[..|rest|] == rest;
  }

  // ---------------------------------------------------------------- when a profile is refused

  function NewerThan(s: Storage, t: int): Storage {
    if s == [] then [] else
      NewerThan(s[..|s| - 1], t) + if t < Visited(s[|s| - 1]) then [s[|s| - 1]] else []
  }

  /** The entry at position i and those the loop would evict after it. */
  function NotBefore(s: Storage, i: nat): Storage
    requires i < |s|
  {
    NewerThan(s[..i], Visited(s[i])) + NewerThan(s[i..], Visited(s[i]) - 1)
  }

  lemma {:induction false} NewerSmaller(s: Storage, t: int)
    ensures EntriesBytes(NewerThan(s, t)) <= EntriesBytes(s) && |NewerThan(s, t)| <= |s|
  {
    if s != [] {
      NewerSmaller(s[..|s| - 1], t);
      var r := NewerThan(s[..|s| - 1], t);
      assert (r + [s[|s| - 1]])[..|r|] == r;
      assert r + [] == r;
    }
  }

  lemma {:induction false} BytesConcat(a: Storage, b: Storage)
    ensures EntriesBytes(a + b) == EntriesBytes(a) + EntriesBytes(b)
  {
    if b == [] {
      assert a + b == a;
    } else {
      BytesConcat(a, b[..|b| - 1]);
      assert (a + b)[..|a + b| - 1] == a + b[..|b| - 1];
    }
  }

  lemma NotBeforeSmaller(s: Storage, i: nat, base: nat)
    requires i < |s|
    ensures SerializedSize(base, NotBefore(s, i)) <= SerializedSize(base, s)
  {
    var a, b := s[..i], s[i..];
    var a', b' := NewerThan(a, Visited(s[i])), NewerThan(b, Visited(s[i]) - 1);
    assert EntriesBytes(a') <= EntriesBytes(a) && |a'| <= |a| by { NewerSmaller(a, Visited(s[i])); }
    assert EntriesBytes(b') <= EntriesBytes(b) && |b'| <= |b| by { NewerSmaller(b, Visited(s[i]) - 1); }
    assert EntriesBytes(a' + b') == EntriesBytes(a') + EntriesBytes(b') by { BytesConcat(a', b'); }
    assert EntriesBytes(s) == EntriesBytes(a) + EntriesBytes(b) by { BytesConcat(a, b); assert a + b == s; }
    SmallerSize(base, a' + b', s);
  }

  lemma SmallerSize(base: nat, a: Storage, b: Storage)
    requires EntriesBytes(a) <= EntriesBytes(b) && |a| <= |b|
    ensures SerializedSize(base, a) <= SerializedSize(base, b)
  {
  }

  lemma {:induction false} NewerAll(s: Storage, t: int)
    requires forall k :: 0 <= k < |s| ==> t < Visited(s[k])
    ensures NewerThan(s, t) == s
  {
    if s != [] {
      NewerAll(s[..|s| - 1], t);
    }
  }

  lemma {:induction false} NewerWithout(s: Storage, o: nat, t: int)
    requires o < |s| && Visited(s[o]) <= t
    ensures NewerThan(Without(s, o), t) == NewerThan(s, t)
  {
    var n := |s| - 1;
    if o == n {
      assert Without(s, o) == s[..n];
    } else {
      NewerWithout(s[..n], o, t);
      assert Without(s, o)[..n - 1] == Without(s[..n], o);
    }
  }

  lemma RemoveBehind(s: Storage, i: nat, o: nat)
    requires i < o < |s| && Visited(s[o]) < Visited(s[i])
    ensures Without(s, o)[i] == s[i] && NotBefore(Without(s, o), i) == NotBefore(s, i)
  {
    assert Without(s, o)[..i] == s[..i];
    assert s[i..][..o - i] == s[i..o] && s[i..][o - i + 1..] == s[o + 1..];
    assert Without(s, o)[i..] == Without(s[i..], o - i);
    NewerWithout(s[i..], o - i, Visited(s[i]) - 1);
  }

  lemma RemoveAhead(s: Storage, i: nat, o: nat)
    requires o < i < |s| && Visited(s[o]) <= Visited(s[i])
    ensures Without(s, o)[i - 1] == s[i] && NotBefore(Without(s, o), i - 1) == NotBefore(s, i)
  {
    assert s[..i][..o] == s[..o] && s[..i][o + 1..] == s[o + 1..i];
    assert Without(s, o)[..i - 1] == Without(s[..i], o);
    assert Without(s, o)[i - 1..] == s[i..];
    NewerWithout(s[..i], o, Visited(s[i]));
  }

  /** Evicting the oldest entry does not change what comes not before another one. */
  lemma NotBeforeWithout(s: Storage, i: nat)
    requires i < |s| && i != OldestIndex(s)
    ensures var o := OldestIndex(s);
            var j := if i < o then i else i - 1;
            Without(s, o)[j] == s[i] && NotBefore(Without(s, o), j) == NotBefore(s, i)
  {
    var o := OldestIndex(s);
    if i < o {
      RemoveBehind(s, i, o);
    } else {
      RemoveAhead(s, i, o);
    }
  }

  /** The empty origin stops the loop while what it leaves is still too long. */
  predicate StuckAt(base: nat, cap: nat, s: Storage, i: nat)
    requires i < |s|
  {
    s[i].origin == "" && cap < SerializedSize(base, NotBefore(s, i))
  }

  ghost predicate Stuck(base: nat, cap: nat, s: Storage) {
    exists i :: 0 <= i < |s| && StuckAt(base, cap, s, i)
  }

  lemma StuckMoves(base: nat, cap: nat, s: Storage, i: nat)
    requires i < |s| && i != OldestIndex(s)
    ensures var o := OldestIndex(s);
            StuckAt(base, cap, Without(s, o), if i < o then i else i - 1) == StuckAt(base, cap, s, i)
  {
    NotBeforeWithout(s, i);
  }

  lemma StuckWithout(base: nat, cap: nat, s: Storage)
    requires s != [] && s[OldestIndex(s)].origin != ""
    ensures Stuck(base, cap, Without(s, OldestIndex(s))) <==> Stuck(base, cap, s)
  {
    if Stuck(base, cap, s) {
      StillStuck(base, cap, s);
    }
    if Stuck(base, cap, Without(s, OldestIndex(s))) {
      StuckBefore(base, cap, s);
    }
  }

  lemma StillStuck(base: nat, cap: nat, s: Storage)
    requires s != [] && s[OldestIndex(s)].origin != "" && Stuck(base, cap, s)
    ensures Stuck(base, cap, Without(s, OldestIndex(s)))
  {
    var i :| 0 <= i < |s| && StuckAt(base, cap, s, i);
    StuckMoves(base, cap, s, i);
  }

  lemma StuckBefore(base: nat, cap: nat, s: Storage)
    requires s != [] && Stuck(base, cap, Without(s, OldestIndex(s)))
    ensures Stuck(base, cap, s)
  {
    var o := OldestIndex(s);
    var r := Without(s, o);
    var j: nat :| j < |r| && StuckAt(base, cap, r, j);
    var i := if j < o then j else j + 1;
    assert (if i < o then i else i - 1) == j;
    StuckMoves(base, cap, s, i);
  }

  lemma NothingStuck(base: nat, cap: nat, s: Storage)
    requires SerializedSize(base, s) <= cap
    ensures !Stuck(base, cap, s)
  {
    forall i | 0 <= i < |s| ensures !StuckAt(base, cap, s, i) {
      NotBeforeSmaller(s, i, base);
    }
  }

  /** Nothing comes before the oldest entry. */
  lemma NotBeforeOldest(s: Storage, o: nat)
    requires o < |s|
    requires forall j :: 0 <= j < |s| ==> Visited(s[o]) <= Visited(s[j])
    requires forall j :: 0 <= j < o ==> Visited(s[o]) < Visited(s[j])
    ensures NotBefore(s, o) == s
  {
    var t := Visited(s[o]);
    assert NewerThan(s[..o], t) == s[..o] by { NewerFront(s, o, t); }
    assert NewerThan(s[o..], t - 1) == s[o..] by { NewerBack(s, o, t - 1); }
    Halves(s, o);
  }

  lemma Halves(s: Storage, o: nat)
    requires o <= |s|
    ensures s[..o] + s[o..] == s
  {
  }

  lemma NewerFront(s: Storage, o: nat, t: int)
    requires o <= |s| && forall j :: 0 <= j < o ==> t < Visited(s[j])
    ensures NewerThan(s[..o], t) == s[..o]
  {
    NewerAll(s[..o], t);
  }

  lemma NewerBack(s: Storage, o: nat, t: int)
    requires o <= |s| && forall j :: o <= j < |s| ==> t < Visited(s[j])
    ensures NewerThan(s[o..], t) == s[o..]
  {
    NewerAll(s[o..], t);
  }

  lemma StuckAtOldest(base: nat, cap: nat, s: Storage)
    requires cap < SerializedSize(base, s) && s != [] && s[OldestIndex(s)].origin == ""
    ensures Stuck(base, cap, s)
  {
    NotBeforeOldest(s, OldestIndex(s));
    assert StuckAt(base, cap, s, OldestIndex(s));
  }

  lemma {:induction false} TrimFailsIff(base: nat, cap: nat, s: Storage)
    ensures cap < SerializedSize(base, Trimmed(base, cap, s)) <==> cap < base || Stuck(base, cap, s)
    decreases |s|
  {
    if SerializedSize(base, s) <= cap {
      NothingStuck(base, cap, s);
    } else if s != [] {
      if s[OldestIndex(s)].origin == "" {
        StuckAtOldest(base, cap, s);
      } else {
        StuckWithout(base, cap, s);
        TrimFailsIff(base, cap, Without(s, OldestIndex(s)));
      }
    }
  }

  // ---------------------------------------------------------------- the limits

  /** Kept and evicted origins partition the input, each kept entry unchanged; nothing evicted is
      newer than anything kept; an accepted profile fits both caps and its reported size is its
      own; a refused one is handed back untouched. */
  lemma EnforcedPartition(p: Profile, caps: Caps)
    requires DistinctOrigins(p.storage)
    ensures var r := Enforced(p, caps);
            var final := Trimmed(p.baseBytes, caps.hardCapBytes, Counted(p, caps));
            && DistinctOrigins(final) && |final| <= caps.maxOrigins
            && (forall e :: e in p.storage ==> (e in final) != (e.origin in r.evicted))
            && (forall e :: e in final ==> e in p.storage)
            && (forall o :: o in r.evicted ==> exists e :: e in p.storage && e.origin == o)
            && r.bytes == SerializedSize(p.baseBytes, final)
            && (!r.refused ==> r.profile == p.(storage := final) && r.bytes <= caps.hardCapBytes)
            && (r.refused ==> r.profile == p && caps.hardCapBytes < r.bytes)
  {
    var keep := Keep(p.storage, caps.maxOrigins);
    var counted := Counted(p, caps);
    var victims := Victims(p.baseBytes, caps.hardCapBytes, counted);
    var final := Trimmed(p.baseBytes, caps.hardCapBytes, counted);
    KeptExactly(p.storage, keep);
    KeptFits(p.storage, caps.maxOrigins);
    TrimSplits(p.baseBytes, caps.hardCapBytes, counted);
    EvictedMembers(p, caps);
    forall e | e in p.storage ensures (e in final) != (e.origin in Enforced(p, caps).evicted) {
      if e.origin in keep {
        if v :| v in victims && e in counted && v.origin == e.origin {
          SameOriginSameEntry(counted, v, e);
        }
      }
    }
  }

  lemma EvictedMembers(p: Profile, caps: Caps)
    requires DistinctOrigins(p.storage)
    ensures var keep := Keep(p.storage, caps.maxOrigins);
            var victims := Victims(p.baseBytes, caps.hardCapBytes, Counted(p, caps));
            forall o :: o in Enforced(p, caps).evicted <==>
              (o !in keep && exists e :: e in p.storage && e.origin == o) || exists v :: v in victims && v.origin == o
  {
    var keep := Keep(p.storage, caps.maxOrigins);
    var victims := Victims(p.baseBytes, caps.hardCapBytes, Counted(p, caps));
    KeptExactly(p.storage, keep);
    var evicted := EvictedFrom(p.storage, keep) + Origins(victims);
    assert Enforced(p, caps).evicted == evicted;
    forall o ensures o in Origins(victims) <==> exists v :: v in victims && v.origin == o {
      if o in Origins(victims) {
        var i :| 0 <= i < |victims| && Origins(victims)[i] == o;
        assert victims[i] in victims;
      }
      if v :| v in victims && v.origin == o {
        var i :| 0 <= i < |victims| && victims[i] == v;
        assert Origins(victims)[i] == o;
      }
    }
  }

  /** Least recently used first, across both phases: nothing evicted is newer than anything kept. */
  lemma EvictedAreOlder(p: Profile, caps: Caps, gone: Entry, stays: Entry)
    requires DistinctOrigins(p.storage)
    requires gone in p.storage && gone.origin in Enforced(p, caps).evicted
    requires stays in Trimmed(p.baseBytes, caps.hardCapBytes, Counted(p, caps))
    ensures Visited(gone) <= Visited(stays)
  {
    var keep := Keep(p.storage, caps.maxOrigins);
    var counted := Counted(p, caps);
    KeptExactly(p.storage, keep);
    TrimSplits(p.baseBytes, caps.hardCapBytes, counted);
    EvictedMembers(p, caps);
    assert stays in counted;
    if gone.origin in keep {
      var v :| v in Victims(p.baseBytes, caps.hardCapBytes, counted) && v.origin == gone.origin;
      assert v in counted && gone in counted;
      SameOriginSameEntry(counted, v, gone);
    } else {
      CountCap(p.storage, caps.maxOrigins, gone, stays);
    }
  }

  /** If the size loop evicted anything, putting its last victim back would break the cap. */
  lemma EvictionIsMinimal(p: Profile, caps: Caps)
    requires Victims(p.baseBytes, caps.hardCapBytes, Counted(p, caps)) != []
    ensures var v := Victims(p.baseBytes, caps.hardCapBytes, Counted(p, caps));
            caps.hardCapBytes < SerializedSize(p.baseBytes,
              Trimmed(p.baseBytes, caps.hardCapBytes, Counted(p, caps)) + [v[|v| - 1]])
  {
    LastVictimNeeded(p.baseBytes, caps.hardCapBytes, Counted(p, caps));
  }

  /** Exactly when a profile is refused: it is over the cap with no origins at all, or the empty
      origin survives the count cap and stops the loop too early. */
  lemma RefusedIff(p: Profile, caps: Caps)
    ensures Enforced(p, caps).refused <==>
            caps.hardCapBytes < p.baseBytes || Stuck(p.baseBytes, caps.hardCapBytes, Counted(p, caps))
  {
    TrimFailsIff(p.baseBytes, caps.hardCapBytes, Counted(p, caps));
  }

  /** So without an empty origin the stated reason, too long even with all origins removed, is
      exactly when it happens. */
  lemma RefusedForTheStatedReason(p: Profile, caps: Caps)
    requires forall e :: e in p.storage ==> e.origin != ""
    ensures Enforced(p, caps).refused <==> caps.hardCapBytes < p.baseBytes
  {
    RefusedIff(p, caps);
    KeptSubset(p.storage, Keep(p.storage, caps.maxOrigins));
    var counted := Counted(p, caps);
    forall i | 0 <= i < |counted| ensures counted[i].origin != "" {
      assert counted[i] in counted;
    }
  }

  lemma {:induction false} KeptSubset(s: Storage, keep: set<Origin>)
    ensures forall e :: e in Kept(s, keep) ==> e in s
  {
    if s != [] {
      KeptSubset(s[..|s| - 1], keep);
      assert s == s[..|s| - 1] + [s[|s| - 1]];
    }
  }

  /** With one it can be wrong: a profile refused although dropping its one origin would do. */
  lemma RefusedForNothing()
    ensures var p := Profile(10, [Entry("", OriginStorage("", None, 100))]);
            Enforced(p, Caps(50, 50, 1000)).refused && p.baseBytes <= 50
  {
  }

  // ---------------------------------------------------------------- the merge

  function Lookup(s: Storage, o: Origin): (r: Option<OriginStorage>)
    ensures r.None? <==> forall e :: e in s ==> e.origin != o
  {
    if s == [] then None else if s[0].origin == o then Some(s[0].data) else Lookup(s[1..], o)
  }

  /** `merged[origin] = data`. */
  function Assign(s: Storage, e: Entry): Storage {
    if s == [] then [e] else if s[0].origin == e.origin then [e] + s[1..] else [s[0]] + Assign(s[1..], e)
  }

  function Merged(loaded: Storage, captured: Storage): Storage {
    if captured == [] then loaded else Assign(Merged(loaded, captured[..|captured| - 1]), captured[|captured| - 1])
  }

  datatype MergeInputs = MergeInputs(
    loadedStorage: Storage,
    loadedCookies: nat,
    capturedCookies: nat,
    capturedStorage: Storage,
    baseBytes: nat,
    caps: Caps)

  datatype MergeResult =
    | Save(profile: Profile, evicted: seq<Origin>, softWarn: bool, bytes: nat)
    | PreservedEmptyCapture
    | PreservedRefused(bytes: nat)

  method MergeAndPrepareProfile(inputs: MergeInputs) returns (r: MergeResult)
    ensures r == Prepared(inputs)
  {
    if inputs.capturedCookies == 0 && inputs.loadedCookies > 0 {
      return PreservedEmptyCapture;
    }
    var merged := inputs.loadedStorage;
    for i := 0 to |inputs.capturedStorage|
      invariant merged == Merged(inputs.loadedStorage, inputs.capturedStorage[..i])
    {
      assert inputs.capturedStorage[..i + 1][..i] == inputs.capturedStorage[..i];
      merged := Assign(merged, inputs.capturedStorage[i]);
    }
    assert inputs.capturedStorage[..|inputs.capturedStorage|] == inputs.capturedStorage;
    var enforced := EnforceProfileLimits(Profile(inputs.baseBytes, merged), inputs.caps);
    if enforced.refused {
      return PreservedRefused(enforced.bytes);
    }
    return Save(enforced.profile, enforced.evicted, enforced.softWarn, enforced.bytes);
  }

  function Prepared(inputs: MergeInputs): MergeResult {
    if inputs.capturedCookies == 0 && inputs.loadedCookies > 0 then PreservedEmptyCapture
    else
      var r := Enforced(Profile(inputs.baseBytes, Merged(inputs.loadedStorage, inputs.capturedStorage)), inputs.caps);
      if r.refused then PreservedRefused(r.bytes) else Save(r.profile, r.evicted, r.softWarn, r.bytes)
  }

  lemma {:induction false} AssignLookup(s: Storage, e: Entry, o: Origin)
    requires DistinctOrigins(s)
    ensures DistinctOrigins(Assign(s, e))
    ensures forall x :: x in Assign(s, e) ==> x == e || x in s
    ensures Lookup(Assign(s, e), o) == if o == e.origin then Some(e.data) else Lookup(s, o)
  {
    if s != [] && s[0].origin != e.origin {
      AssignLookup(s[1..], e, o);
      var rest := Assign(s[1..], e);
      forall i | 0 <= i < |rest| ensures s[0].origin != rest[i].origin {
        assert rest[i] in rest;
      }
    }
  }

  lemma {:induction false} LookupAppend(s: Storage, e: Entry, o: Origin)
    ensures Lookup(s + [e], o) ==
            if Lookup(s, o).Some? then Lookup(s, o) else if e.origin == o then Some(e.data) else None
  {
    if s == [] {
      assert s + [e] == [e];
    } else {
      LookupAppend(s[1..], e, o);
      assert (s + [e])[1..] == s[1..] + [e];
    }
  }

  /** The origin of the last entry is not among the others. */
  lemma AbsentBefore(s: Storage, o: Origin)
    requires s != [] && DistinctOrigins(s) && o == s[|s| - 1].origin
    ensures Lookup(s[..|s| - 1], o) == None
  {
    LookupAbsent(s[..|s| - 1], o);
  }

  lemma {:induction false} LookupAbsent(s: Storage, o: Origin)
    requires forall i :: 0 <= i < |s| ==> s[i].origin != o
    ensures Lookup(s, o) == None
  {
    if s != [] {
      LookupAbsent(s[1..], o);
    }
  }

  lemma {:induction false} MergedLookup(loaded: Storage, captured: Storage, o: Origin)
    requires DistinctOrigins(loaded) && DistinctOrigins(captured)
    ensures DistinctOrigins(Merged(loaded, captured))
    ensures Lookup(Merged(loaded, captured), o) ==
            if Lookup(captured, o).Some? then Lookup(captured, o) else Lookup(loaded, o)
  {
    if captured != [] {
      var front, last := captured[..|captured| - 1], captured[|captured| - 1];
      var before := Merged(loaded, front);
      assert DistinctOrigins(before) &&
             Lookup(before, o) == if Lookup(front, o).Some? then Lookup(front, o) else Lookup(loaded, o) by {
        MergedLookup(loaded, front, o);
      }
      var after := Assign(before, last);
      assert DistinctOrigins(after) &&
             Lookup(after, o) == if o == last.origin then Some(last.data) else Lookup(before, o) by {
        AssignLookup(before, last, o);
      }
      assert Lookup(captured, o) == if o == last.origin then Some(last.data) else Lookup(front, o) by {
        assert captured == front + [last];
        LookupAppend(front, last, o);
        if o == last.origin { AbsentBefore(captured, o); }
      }
    }
  }

  lemma {:induction false} LookupMember(s: Storage, e: Entry)
    requires DistinctOrigins(s) && e in s
    ensures Lookup(s, e.origin) == Some(e.data)
  {
    if s[0] != e {
      LookupMember(s[1..], e);
    }
  }

  /** A saved profile fits both caps, and every origin in it carries the captured data if that
      origin was captured, else the loaded data. */
  lemma SavedProfile(inputs: MergeInputs, e: Entry)
    requires DistinctOrigins(inputs.loadedStorage) && DistinctOrigins(inputs.capturedStorage)
    requires Prepared(inputs).Save? && e in Prepared(inputs).profile.storage
    ensures var r := Prepared(inputs);
            && r.bytes == SerializedSize(r.profile.baseBytes, r.profile.storage) <= inputs.caps.hardCapBytes
            && |r.profile.storage| <= inputs.caps.maxOrigins
            && Some(e.data) == (if Lookup(inputs.capturedStorage, e.origin).Some?
                                then Lookup(inputs.capturedStorage, e.origin)
                                else Lookup(inputs.loadedStorage, e.origin))
  {
    var merged := Merged(inputs.loadedStorage, inputs.capturedStorage);
    MergedLookup(inputs.loadedStorage, inputs.capturedStorage, e.origin);
    EnforcedPartition(Profile(inputs.baseBytes, merged), inputs.caps);
    LookupMember(merged, e);
  }

  // ---------------------------------------------------------------- which answer is given

  /** Ranking leaves every origin once. */
  lemma RankedDistinct(s: Storage)
    requires DistinctOrigins(s)
    ensures DistinctOrigins(Sorting.StableSort(s, NewestFirst))
  {
    var ranked := Sorting.StableSort(s, NewestFirst);
    var differ: Sorting.Order<Entry> := (a: Entry, b: Entry) => a.origin != b.origin;
    assert Sorting.Listed(s, differ);
    Sorting.SortListed(s, NewestFirst, differ);
    RankedMembers(s);
    forall i, j | 0 <= i < j < |ranked| ensures ranked[i].origin != ranked[j].origin {
      assert Sorting.Then(NewestFirst, differ)(ranked[i], ranked[j]);
      assert ranked[i] in ranked && ranked[j] in ranked;
      if ranked[i].origin == ranked[j].origin {
        SameOriginSameEntry(s, ranked[i], ranked[j]);
      }
    }
  }

  /** The count cap keeps as many origins as it allows: all, or exactly maxOrigins. */
  lemma CountCapKeeps(s: Storage, maxOrigins: nat)
    requires DistinctOrigins(s)
    ensures |Kept(s, Keep(s, maxOrigins))| == Min(|s|, maxOrigins)
  {
    var keep, kept := Keep(s, maxOrigins), Kept(s, Keep(s, maxOrigins));
    OriginsMembers(s);
    if |s| <= maxOrigins {
      KeepAll(s, OriginsOf(s));
    } else {
      KeepIsFull(s, maxOrigins);
      KeptExactly(s, keep);
      DistinctCount(kept);
      OriginsMembers(kept);
      assert OriginsOf(kept) == keep;
    }
  }

  lemma KeepIsFull(s: Storage, maxOrigins: nat)
    requires DistinctOrigins(s) && maxOrigins < |s|
    ensures |Keep(s, maxOrigins)| == maxOrigins
    ensures forall o :: o in Keep(s, maxOrigins) ==> exists e :: e in s && e.origin == o
  {
    var ranked := Sorting.StableSort(s, NewestFirst);
    var top := ranked[..maxOrigins];
    RankedDistinct(s);
    DistinctCount(top);
    OriginsMembers(top);
    RankedMembers(s);
    forall o | o in OriginsOf(top) ensures exists e :: e in s && e.origin == o {
      var e :| e in top && e.origin == o;
      assert e in ranked;
    }
  }

  predicate OldestFirst(v: seq<Entry>) {
    forall i, j :: 0 <= i < j < |v| ==> Visited(v[i]) <= Visited(v[j])
  }

  lemma {:induction false} VictimsWereThere(base: nat, cap: nat, s: Storage)
    ensures forall e :: e in Victims(base, cap, s) ==> e in s
    decreases |s|
  {
    if Victims(base, cap, s) != [] {
      VictimsWereThere(base, cap, Without(s, OldestIndex(s)));
    }
  }

  lemma OldestThenRest(s: Storage, later: seq<Entry>)
    requires s != [] && OldestFirst(later) && forall e :: e in later ==> e in s
    ensures OldestFirst([s[OldestIndex(s)]] + later)
  {
    forall j | 0 <= j < |later| ensures Visited(s[OldestIndex(s)]) <= Visited(later[j]) {
      assert later[j] in later;
    }
  }

  /** The size loop lets the oldest go first. */
  lemma {:induction false} VictimsOldestFirst(base: nat, cap: nat, s: Storage)
    ensures OldestFirst(Victims(base, cap, s))
    decreases |s|
  {
    if Victims(base, cap, s) != [] {
      var rest := Without(s, OldestIndex(s));
      VictimsOldestFirst(base, cap, rest);
      VictimsWereThere(base, cap, rest);
      OldestThenRest(s, Victims(base, cap, rest));
    }
  }

  /** The answer of a merge: nothing is saved exactly if nothing was captured over cookies that were
      loaded, or if the merged profile cannot be brought under the hard cap; whatever else is saved,
      under the cap, with a warning exactly if it is over the soft limit. */
  lemma PreparedMeaning(inputs: MergeInputs)
    requires DistinctOrigins(inputs.loadedStorage) && DistinctOrigins(inputs.capturedStorage)
    ensures var r := Prepared(inputs);
            var empty := inputs.capturedCookies == 0 && 0 < inputs.loadedCookies;
            var merged := Merged(inputs.loadedStorage, inputs.capturedStorage);
            var hopeless := || inputs.caps.hardCapBytes < inputs.baseBytes
                            || Stuck(inputs.baseBytes, inputs.caps.hardCapBytes,
                                     Counted(Profile(inputs.baseBytes, merged), inputs.caps));
            && (r == PreservedEmptyCapture <==> empty)
            && (r.PreservedRefused? <==> !empty && hopeless)
            && (r.PreservedRefused? ==> inputs.caps.hardCapBytes < r.bytes)
            && (r.Save? <==> !empty && !hopeless)
            && (r.Save? ==> r.bytes <= inputs.caps.hardCapBytes &&
                            (r.softWarn <==> inputs.caps.softWarnBytes < r.bytes))
  {
    RefusedIff(Profile(inputs.baseBytes, Merged(inputs.loadedStorage, inputs.capturedStorage)), inputs.caps);
  }

  /** The limits warn exactly if they refuse or leave more than the soft limit. */
  lemma WarnMeaning(p: Profile, caps: Caps)
    ensures var r := Enforced(p, caps); r.softWarn <==> r.refused || caps.softWarnBytes < r.bytes
  {
  }

  /** With no empty origin anywhere a capture is refused only if the profile is too long with all
      origins removed. */
  lemma RefusedMergeMeaning(inputs: MergeInputs)
    requires DistinctOrigins(inputs.loadedStorage) && DistinctOrigins(inputs.capturedStorage)
    requires forall e :: e in inputs.loadedStorage || e in inputs.capturedStorage ==> e.origin != ""
    ensures Prepared(inputs).PreservedRefused? <==>
            !(inputs.capturedCookies == 0 && 0 < inputs.loadedCookies) && inputs.caps.hardCapBytes < inputs.baseBytes
  {
    var merged := Merged(inputs.loadedStorage, inputs.capturedStorage);
    MergedMembers(inputs.loadedStorage, inputs.capturedStorage);
    RefusedForTheStatedReason(Profile(inputs.baseBytes, merged), inputs.caps);
  }

  lemma {:induction false} MergedMembers(loaded: Storage, captured: Storage)
    ensures forall e :: e in Merged(loaded, captured) ==> e in loaded || e in captured
  {
    if captured != [] {
      var front, last := captured[..|captured| - 1], captured[|captured| - 1];
      MergedMembers(loaded, front);
      AssignMembers(Merged(loaded, front), last);
      assert captured == front + [last];
    }
  }

  lemma {:induction false} AssignMembers(s: Storage, e: Entry)
    ensures forall x :: x in Assign(s, e) ==> x == e || x in s
  {
    if s != [] && s[0].origin != e.origin {
      AssignMembers(s[1..], e);
    }
  }

  // ---------------------------------------------------------------- the length of the text

  /** Entries one behind the other with a comma between any two. */
  function Joined(parts: seq<string>): string {
    if |parts| <= 1 then (if parts == [] then "" else parts[0])
    else Joined(parts[..|parts| - 1]) + "," + parts[|parts| - 1]
  }

  /** The size the limits look at is the length of the text: what is there without origins, and the
      origins' entries separated by commas. */
  lemma {:induction false} SizeMeaning(frame: string, s: Storage, parts: seq<string>)
    requires |parts| == |s| && forall i :: 0 <= i < |s| ==> |parts[i]| == s[i].data.entryBytes
    ensures SerializedSize(|frame|, s) == |frame + Joined(parts)|
  {
    if |s| == 1 {
      assert EntriesBytes(s[..0]) == 0;
    } else if s != [] {
      SizeMeaning(frame, s[..|s| - 1], parts[..|s| - 1]);
    }
  }
}
