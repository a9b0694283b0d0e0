/** Slot counting (src/core/tracking/concurrency.ts) and its ledger over whole runs. */
module Concurrency {
  import opened Basics
  import opened Providers
  import opened Registry

  type SessionId = string

  datatype Held = Held(providerId: ProviderId, timestamp: int)

  type Sessions = map<SessionId, Held>

  /** The sessions tracked for one provider. */
  function TrackedOf(s: Sessions, id: ProviderId): set<SessionId> {
    set sid | sid in s && s[sid].providerId == id
  }

  function Tracked(s: Sessions, id: ProviderId): nat {
    |TrackedOf(s, id)|
  }

  /** The tracked sessions older than the limit. */
  function Stale(s: Sessions, now: int, maxAgeMs: int): set<SessionId> {
    set sid | sid in s && now - s[sid].timestamp > maxAgeMs
  }

  /** Those of `gone` that belong to one provider. */
  function Among(gone: set<SessionId>, s: Sessions, id: ProviderId): set<SessionId> {
    set sid | sid in gone && sid in s && s[sid].providerId == id
  }

  predicate Full(p: Provider) {
    var max := EffectiveMaxConcurrent(p);
    max.Some? && max.value != 0 && max.value <= p.active
  }

  function Taken(p: Provider): Provider {
    p.(active := p.active + 1, totalConnections := p.totalConnections + 1)
  }

  /** `Math.max(0, active - n)`. */
  function Freed(p: Provider, n: nat): Provider {
    p.(active := Max(0, p.active - n))
  }

  /** The enabled providers after the sessions `gone` have been swept, one slot each. */
  function Swept(ps: seq<Provider>, s: Sessions, gone: set<SessionId>): (r: seq<Provider>)
    ensures |r| == |ps|
    ensures forall i :: 0 <= i < |ps| ==> r[i] == Freed(ps[i], |Among(gone, s, ps[i].id)|)
  {
    seq(|ps|, i requires 0 <= i < |ps| => Freed(ps[i], |Among(gone, s, ps[i].id)|))
  }

  class ConcurrencyTracker {
    var sessions: Sessions

    constructor ()
      ensures sessions == map[]
    {
      sessions := map[];
    }

    method Acquire(providerId: ProviderId, sessionId: SessionId, provider: Provider, now: int)
      returns (ok: bool, updated: Provider)
      modifies this
      ensures ok == !Full(provider)
      ensures ok ==> sessions == old(sessions)[sessionId := Held(providerId, now)] && updated == Taken(provider)
      ensures !ok ==> sessions == old(sessions) && updated == provider
    {
      var maxConcurrent := EffectiveMaxConcurrent(provider);
      if maxConcurrent.Some? && maxConcurrent.value != 0 && provider.active >= maxConcurrent.value {
        return false, provider;
      }
      sessions := sessions[sessionId := Held(providerId, now)];
      return true, Taken(provider);
    }

    method Release(sessionId: SessionId, provider: Provider) returns (updated: Provider)
      modifies this
      ensures sessions == old(sessions) - {sessionId}
      ensures updated == if sessionId in old(sessions) then Freed(provider, 1) else provider
    {
      if sessionId !in sessions {
        return provider;
      }
      sessions := sessions - {sessionId};
      updated := Freed(provider, 1);
    }

    method GetActive(providerId: ProviderId) returns (count: nat)
      ensures count == Tracked(sessions, providerId)
    {
      count := 0;
      var rest := sessions.Keys;
      ghost var seen: set<SessionId> := {};
      while rest != {}
        invariant rest <= sessions.Keys && seen == sessions.Keys - rest
        invariant count == |Among(seen, sessions, providerId)|
        decreases |rest|
      {
        var sid :| sid in rest;
        AmongGrows(seen, sessions, providerId, sid);
        if sessions[sid].providerId == providerId {
          count := count + 1;
        }
        rest := rest - {sid};
        seen := seen + {sid};
      }
      assert Among(seen, sessions, providerId) == TrackedOf(sessions, providerId);
    }

    /** Sweeps every stale session, freeing a slot of its provider if that one is enabled. */
    method Reconcile(registry: ProviderRegistry, maxAgeMs: int, now: int) returns (cleaned: nat)
      requires registry.Valid()
      modifies this, registry`providers
      ensures registry.Valid()
      ensures sessions == old(sessions) - Stale(old(sessions), now, maxAgeMs)
      ensures registry.providers == Swept(old(registry.providers), old(sessions), Stale(old(sessions), now, maxAgeMs))
      ensures cleaned == |Stale(old(sessions), now, maxAgeMs)|
    {
      ghost var before, providers := sessions, registry.providers;
      var rest := Stale(sessions, now, maxAgeMs);
      ghost var stale, gone := rest, {};
      cleaned := 0;
      SweptNothing(providers, before);
      while rest != {}
        invariant registry.Valid()
        invariant rest <= stale && gone == stale - rest && cleaned == |gone|
        invariant sessions == before - gone
        invariant registry.providers == Swept(providers, before, gone)
        decreases |rest|
      {
        var sid :| sid in rest;
        OneFewer(stale, gone, sid);
        SweepNext(registry, sid, before, providers, gone);
        cleaned := cleaned + 1;
        rest := rest - {sid};
        gone := gone + {sid};
      }
    }

    method SweepNext(registry: ProviderRegistry, sid: SessionId,
                     ghost before: Sessions, ghost providers: seq<Provider>, ghost gone: set<SessionId>)
      requires registry.Valid() && DistinctIds(providers) && sid in before && sid !in gone
      requires sessions == before - gone && registry.providers == Swept(providers, before, gone)
      modifies this, registry`providers
      ensures registry.Valid()
      ensures sessions == before - (gone + {sid})
      ensures registry.providers == Swept(providers, before, gone + {sid})
    {
      SweepSession(registry, sid);
      SweepOne(providers, before, gone, sid);
      assert before - gone - {sid} == before - (gone + {sid});
    }

    method SweepSession(registry: ProviderRegistry, sid: SessionId)
      requires registry.Valid() && sid in sessions
      modifies this, registry`providers
      ensures registry.Valid()
      ensures sessions == old(sessions) - {sid}
      ensures registry.providers == FreedIn(old(registry.providers), old(sessions)[sid].providerId)
    {
      var provider := registry.Get(sessions[sid].providerId);
      if provider.Some? {
        PutDistinct(registry.providers, Freed(provider.value, 1));
        registry.providers := Put(registry.providers, Freed(provider.value, 1));
      }
      sessions := sessions - {sid};
    }
  }

  function FreedIn(ps: seq<Provider>, id: ProviderId): seq<Provider> {
    var p := Lookup(ps, id);
    if p.Some? then Put(ps, Freed(p.value, 1)) else ps
  }

  lemma AmongGrows(gone: set<SessionId>, s: Sessions, id: ProviderId, sid: SessionId)
    requires sid in s && sid !in gone
    ensures |Among(gone + {sid}, s, id)| == |Among(gone, s, id)| + if s[sid].providerId == id then 1 else 0
  {
    if s[sid].providerId == id {
      assert Among(gone + {sid}, s, id) == Among(gone, s, id) + {sid};
    } else {
      assert Among(gone + {sid}, s, id) == Among(gone, s, id);
    }
  }

  lemma OneFewer(stale: set<SessionId>, gone: set<SessionId>, sid: SessionId)
    requires sid in stale && sid !in gone
    ensures stale - (gone + {sid}) == stale - gone - {sid} && |gone + {sid}| == |gone| + 1
  {
  }

  lemma SweptNothing(ps: seq<Provider>, s: Sessions)
    ensures Swept(ps, s, {}) == ps
  {
  }

  lemma SweepOne(ps: seq<Provider>, s: Sessions, gone: set<SessionId>, sid: SessionId)
    requires sid in s && sid !in gone && DistinctIds(ps)
    ensures FreedIn(Swept(ps, s, gone), s[sid].providerId) == Swept(ps, s, gone + {sid})
  {
    var id := s[sid].providerId;
    var swept := Swept(ps, s, gone);
    var next := Swept(ps, s, gone + {sid});
    forall i | 0 <= i < |ps| ensures next[i] == if ps[i].id == id then Freed(swept[i], 1) else swept[i] {
      AmongGrows(gone, s, ps[i].id, sid);
    }
    if Lookup(swept, id).Some? {
      var k :| 0 <= k < |ps| && swept[k] == Lookup(swept, id).value;
      PutAt(swept, k, Freed(swept[k], 1));
    }
  }

  // ---------------------------------------------------------------- whole runs

  /** Everything slot counting depends on. `leaked` is book-keeping of the model only: per provider,
      the sessions swept while it was not enabled, whose slots nobody gave back. */
  datatype Ledger = Ledger(registry: RegistryView, sessions: Sessions, leaked: map<ProviderId, nat>)

  datatype Event =
    | Acquire(providerId: ProviderId, sessionId: SessionId, now: int)
    | Release(sessionId: SessionId, providerId: ProviderId)
    | Apply(id: ProviderId, config: ProviderConfig, enabled: bool)
    | Remove(id: ProviderId)
    | Reconcile(now: int, maxAgeMs: int)
    | Note(record: Provider)

  function Leaked(l: Ledger, id: ProviderId): nat {
    if id in l.leaked then l.leaked[id] else 0
  }

  /** Fields slot counting does not own: cooldowns, latencies, probe results. */
  predicate SameSlots(a: Provider, b: Provider) {
    a.id == b.id && a.active == b.active && a.config == b.config
  }

  function Step(l: Ledger, e: Event): Ledger {
    match e
    case Acquire(id, sid, now) =>
      var p := Lookup(l.registry.enabled, id);
      if p.None? || Full(p.value) then l
      else l.(registry := Stored(l.registry, Taken(p.value)), sessions := l.sessions[sid := Held(id, now)])
    case Release(sid, id) =>
      var p := Find(l.registry, id);
      if p.None? || sid !in l.sessions then l
      else l.(registry := Stored(l.registry, Freed(p.value, 1)), sessions := l.sessions - {sid})
    case Apply(id, config, enabled) =>
      l.(registry := if enabled then Enabled(l.registry, id, config) else Disabled(l.registry, id, config))
    case Remove(id) =>
      var p := Find(l.registry, id);
      if p.Some? && 0 < p.value.active then l else l.(registry := Removed(l.registry, id))
    case Reconcile(now, maxAgeMs) =>
      var stale := Stale(l.sessions, now, maxAgeMs);
      Ledger(l.registry.(enabled := Swept(l.registry.enabled, l.sessions, stale)), l.sessions - stale,
             LeakedAfter(l, stale))
    case Note(record) =>
      var p := Find(l.registry, record.id);
      if p.Some? && SameSlots(p.value, record) then l.(registry := Stored(l.registry, record)) else l
  }

  function LeakedAfter(l: Ledger, stale: set<SessionId>): map<ProviderId, nat> {
    map id | id in l.leaked.Keys + (set p | p in l.registry.disabled :: p.id) ::
      Leaked(l, id) + if Lookup(l.registry.disabled, id).Some? then |Among(stale, l.sessions, id)| else 0
  }

  function Run(l: Ledger, es: seq<Event>): Ledger {
    if es == [] then l else Step(Run(l, es[..|es| - 1]), es[|es| - 1])
  }

  const EMPTY := Ledger(RegistryView([], []), map[], map[])

  /** The slots of one provider add up: its count is its tracked sessions plus its leaked ones.
      Nothing is tracked or leaked for a provider that is not registered. */
  ghost predicate Settled(l: Ledger, id: ProviderId) {
    Tracked(l.sessions, id) + Leaked(l, id) ==
    if Find(l.registry, id).Some? then Find(l.registry, id).value.active else 0
  }

  /** Conservation of slots. */
  ghost predicate Balanced(l: Ledger) {
    WellKeyed(l.registry) && forall id :: Settled(l, id)
  }

  /** What the callers keep: a session id is not acquired twice while it is tracked, and a
      release names the provider that was acquired. */
  predicate Disciplined(l: Ledger, e: Event) {
    match e
    case Acquire(id, sid, now) => sid !in l.sessions
    case Release(sid, id) => sid in l.sessions ==> l.sessions[sid].providerId == id
    case _ => true
  }

  ghost predicate DisciplinedRun(l: Ledger, es: seq<Event>) {
    forall i :: 0 <= i < |es| ==> Disciplined(Run(l, es[..i]), es[i])
  }

  lemma TrackedAfterAcquire(s: Sessions, sid: SessionId, id: ProviderId, now: int, other: ProviderId)
    requires sid !in s
    ensures Tracked(s[sid := Held(id, now)], other) == Tracked(s, other) + if other == id then 1 else 0
  {
    var t := s[sid := Held(id, now)];
    if other == id {
      assert TrackedOf(t, other) == TrackedOf(s, other) + {sid};
    } else {
      assert TrackedOf(t, other) == TrackedOf(s, other);
    }
  }

  lemma TrackedAfterRelease(s: Sessions, sid: SessionId, other: ProviderId)
    requires sid in s
    ensures Tracked(s - {sid}, other) + (if other == s[sid].providerId then 1 else 0) == Tracked(s, other)
  {
    if other == s[sid].providerId {
      assert TrackedOf(s, other) == TrackedOf(s - {sid}, other) + {sid};
    } else {
      assert TrackedOf(s, other) == TrackedOf(s - {sid}, other);
    }
  }

  lemma TrackedAfterSweep(s: Sessions, gone: set<SessionId>, id: ProviderId)
    ensures Tracked(s - gone, id) + |Among(gone, s, id)| == Tracked(s, id)
  {
    assert TrackedOf(s, id) == TrackedOf(s - gone, id) + Among(gone, s, id);
  }

  lemma {:induction false} LookupSwept(ps: seq<Provider>, s: Sessions, gone: set<SessionId>, id: ProviderId)
    ensures var p := Lookup(ps, id);
            Lookup(Swept(ps, s, gone), id) == if p.None? then None else Some(Freed(p.value, |Among(gone, s, id)|))
  {
    if ps != [] {
      LookupSwept(ps[1..], s, gone, id);
      assert Swept(ps, s, gone)[1..] == Swept(ps[1..], s, gone);
    }
  }

  lemma FindAfterApply(r: RegistryView, id: ProviderId, config: ProviderConfig, other: ProviderId)
    requires WellKeyed(r)
    ensures var held := Find(r, id).GetOr(FreshProvider(id, config)).(config := config);
            && Find(Disabled(r, id, config), other) == (if other == id then Some(held) else Find(r, other))
            && Find(Enabled(r, id, config), other) == (if other == id then Some(held) else Find(r, other))
  {
    var held := Find(r, id).GetOr(FreshProvider(id, config)).(config := config);
    LookupDrop(r.enabled, id, other);
    LookupDrop(r.disabled, id, other);
    LookupPut(r.enabled, held, other);
    LookupPut(r.disabled, held, other);
  }

  lemma FindAfterRemove(r: RegistryView, id: ProviderId, other: ProviderId)
    requires WellKeyed(r)
    ensures Find(Removed(r, id), other) == if other == id then None else Find(r, other)
  {
    LookupDrop(r.enabled, id, other);
    LookupDrop(r.disabled, id, other);
  }

  lemma SweptKeys(r: RegistryView, s: Sessions, gone: set<SessionId>)
    requires WellKeyed(r)
    ensures WellKeyed(r.(enabled := Swept(r.enabled, s, gone)))
  {
  }

  /** The record of one provider after an event. */
  function RecordAfter(l: Ledger, e: Event, id: ProviderId): Option<Provider> {
    var p := Find(l.registry, id);
    match e
    case Acquire(acquired, sid, now) =>
      if id == acquired && Lookup(l.registry.enabled, id).Some? && !Full(p.value) then Some(Taken(p.value)) else p
    case Release(sid, released) =>
      if id == released && p.Some? && sid in l.sessions then Some(Freed(p.value, 1)) else p
    case Apply(applied, config, enabled) =>
      if id == applied then Some(p.GetOr(FreshProvider(id, config)).(config := config)) else p
    case Remove(removed) =>
      if id == removed && !(p.Some? && 0 < p.value.active) then None else p
    case Reconcile(now, maxAgeMs) =>
      if Lookup(l.registry.enabled, id).Some?
      then Some(Freed(p.value, |Among(Stale(l.sessions, now, maxAgeMs), l.sessions, id)|)) else p
    case Note(record) =>
      if id == record.id && p.Some? && SameSlots(p.value, record) then Some(record) else p
  }

  lemma KeysAfter(l: Ledger, e: Event)
    requires WellKeyed(l.registry)
    ensures WellKeyed(Step(l, e).registry)
  {
    if e.Acquire? || e.Release? || e.Note? {
      KeysAfterStore(l, e);
    } else if e.Apply? {
      OperationsKeepKeys(l.registry, e.id, e.config);
    } else if e.Remove? {
      DropDistinct(l.registry.enabled, e.id);
      DropDistinct(l.registry.disabled, e.id);
    } else {
      SweptKeys(l.registry, l.sessions, Stale(l.sessions, e.now, e.maxAgeMs));
    }
  }

  lemma KeysAfterStore(l: Ledger, e: Event)
    requires WellKeyed(l.registry) && (e.Acquire? || e.Release? || e.Note?)
    ensures WellKeyed(Step(l, e).registry)
  {
    match e
    case Acquire(id, sid, now) =>
      var p := Lookup(l.registry.enabled, id);
      if p.Some? { StoreKeepsKeys(l.registry, Taken(p.value)); }
    case Release(sid, id) =>
      var p := Find(l.registry, id);
      if p.Some? { StoreKeepsKeys(l.registry, Freed(p.value, 1)); }
    case Note(record) =>
      if Find(l.registry, record.id).Some? { StoreKeepsKeys(l.registry, record); }
  }

  lemma FindAfter(l: Ledger, e: Event, id: ProviderId)
    requires WellKeyed(l.registry)
    ensures Find(Step(l, e).registry, id) == RecordAfter(l, e, id)
  {
    if e.Acquire? || e.Release? || e.Note? {
      FindAfterStore(l, e, id);
    } else if e.Apply? {
      FindAfterApply(l.registry, e.id, e.config, id);
    } else if e.Remove? {
      FindAfterRemove(l.registry, e.id, id);
    } else {
      LookupSwept(l.registry.enabled, l.sessions, Stale(l.sessions, e.now, e.maxAgeMs), id);
    }
  }

  lemma FindAfterStore(l: Ledger, e: Event, id: ProviderId)
    requires e.Acquire? || e.Release? || e.Note?
    ensures Find(Step(l, e).registry, id) == RecordAfter(l, e, id)
  {
    match e
    case Acquire(acquired, sid, now) =>
      var p := Lookup(l.registry.enabled, acquired);
      if p.Some? { FindStored(l.registry, Taken(p.value), id); }
    case Release(sid, released) =>
      var p := Find(l.registry, released);
      if p.Some? { FindStored(l.registry, Freed(p.value, 1), id); }
    case Note(record) =>
      if Find(l.registry, record.id).Some? { FindStored(l.registry, record, id); }
  }

  lemma LeakedAfterSweep(l: Ledger, stale: set<SessionId>, id: ProviderId)
    ensures (if id in LeakedAfter(l, stale) then LeakedAfter(l, stale)[id] else 0) ==
            Leaked(l, id) + if Lookup(l.registry.disabled, id).Some? then |Among(stale, l.sessions, id)| else 0
  {
  }

  /** One provider's slots keep adding up through a disciplined event. */
  lemma SettledStep(l: Ledger, e: Event, id: ProviderId)
    requires Balanced(l) && Disciplined(l, e)
    ensures Settled(Step(l, e), id)
  {
    if e.Release? {
      SettledRelease(l, e.sessionId, e.providerId, id);
    } else if e.Reconcile? {
      SettledSweep(l, e.now, e.maxAgeMs, id);
    } else {
      assert Settled(l, id);
      FindAfter(l, e, id);
      if e.Acquire? {
        TrackedAfterAcquire(l.sessions, e.sessionId, e.providerId, e.now, id);
      }
    }
  }

  lemma SettledRelease(l: Ledger, sid: SessionId, released: ProviderId, id: ProviderId)
    requires Balanced(l) && Disciplined(l, Release(sid, released))
    ensures Settled(Step(l, Release(sid, released)), id)
  {
    assert Settled(l, id) && Settled(l, released);
    FindAfter(l, Release(sid, released), id);
    if sid in l.sessions {
      TrackedAfterRelease(l.sessions, sid, id);
    }
  }

  lemma SettledSweep(l: Ledger, now: int, maxAgeMs: int, id: ProviderId)
    requires Balanced(l)
    ensures Settled(Step(l, Reconcile(now, maxAgeMs)), id)
  {
    var stale := Stale(l.sessions, now, maxAgeMs);
    assert Settled(l, id);
    FindAfter(l, Reconcile(now, maxAgeMs), id);
    TrackedAfterSweep(l.sessions, stale, id);
    LeakedAfterSweep(l, stale, id);
  }

  lemma BalancedStep(l: Ledger, e: Event)
    requires Balanced(l) && Disciplined(l, e)
    ensures Balanced(Step(l, e))
  {
    KeysAfter(l, e);
    forall id ensures Settled(Step(l, e), id) {
      SettledStep(l, e, id);
    }
  }

  /** Slot accounting over whole runs: through every sequence of acquisitions, releases, sweeps,
      configuration changes, removals and probes, each provider's count is exactly its tracked
      sessions plus the sessions swept while it was disabled. */
  lemma {:induction false} SlotConservation(l: Ledger, es: seq<Event>)
    requires Balanced(l) && DisciplinedRun(l, es)
    ensures Balanced(Run(l, es))
  {
    if es != [] {
      var earlier := es[..|es| - 1];
      forall i | 0 <= i < |earlier| ensures Disciplined(Run(l, earlier[..i]), earlier[i]) {
        assert earlier[..i] == es[..i];
      }
      SlotConservation(l, earlier);
      BalancedStep(Run(l, earlier), es[|es| - 1]);
    }
  }

  lemma EmptyIsBalanced()
    ensures Balanced(EMPTY)
  {
  }

  // ---------------------------------------------------------------- slots a sweep leaks

  /** A sweep that finds the provider disabled while a session of its own is stale. */
  ghost predicate LeakingSweep(l: Ledger, e: Event, id: ProviderId) {
    && e.Reconcile? && Lookup(l.registry.disabled, id).Some?
    && Among(Stale(l.sessions, e.now, e.maxAgeMs), l.sessions, id) != {}
  }

  /** No event of the run is such a sweep. */
  ghost predicate NoLeakingSweep(es: seq<Event>, id: ProviderId) {
    es == [] ||
    (NoLeakingSweep(es[..|es| - 1], id) && !LeakingSweep(Run(EMPTY, es[..|es| - 1]), es[|es| - 1], id))
  }

  /** Leaked slots are never given back, and only a leaking sweep adds to them. */
  lemma LeakedStep(l: Ledger, e: Event, id: ProviderId)
    ensures Leaked(l, id) <= Leaked(Step(l, e), id)
    ensures Leaked(l, id) < Leaked(Step(l, e), id) <==> LeakingSweep(l, e, id)
  {
    if e.Reconcile? {
      LeakedAfterSweep(l, Stale(l.sessions, e.now, e.maxAgeMs), id);
    }
  }

  lemma {:induction false} NothingLeakedIff(es: seq<Event>, id: ProviderId)
    ensures Leaked(Run(EMPTY, es), id) == 0 <==> NoLeakingSweep(es, id)
  {
    if es != [] {
      NothingLeakedIff(es[..|es| - 1], id);
      LeakedStep(Run(EMPTY, es[..|es| - 1]), es[|es| - 1], id);
    }
  }

  /** The count of a registered provider equals its tracked sessions exactly when no sweep of the
      run found it disabled while a session of its own was stale. */
  lemma CountEqualsTrackedIff(es: seq<Event>, id: ProviderId)
    requires DisciplinedRun(EMPTY, es) && Find(Run(EMPTY, es).registry, id).Some?
    ensures var l := Run(EMPTY, es);
            Find(l.registry, id).value.active == Tracked(l.sessions, id) <==> NoLeakingSweep(es, id)
  {
    EmptyIsBalanced();
    SlotConservation(EMPTY, es);
    assert Settled(Run(EMPTY, es), id);
    NothingLeakedIff(es, id);
  }

  function Busy(config: ProviderConfig): Provider {
    Taken(FreshProvider("p", config))
  }

  function Tracking(): Sessions {
    map["s" := Held("p", 0)]
  }

  lemma StepsBeforeSweep(config: ProviderConfig)
    ensures var enabled := Ledger(RegistryView([FreshProvider("p", config)], []), map[], map[]);
            var busy := Ledger(RegistryView([Busy(config)], []), Tracking(), map[]);
            && Step(EMPTY, Apply("p", config, true)) == enabled
            && Step(enabled, Acquire("p", "s", 0)) == busy
            && Step(busy, Apply("p", config, false)) == Ledger(RegistryView([], [Busy(config)]), Tracking(), map[])
  {
  }

  lemma SweepOfDisabled(config: ProviderConfig)
    ensures var l := Step(Ledger(RegistryView([], [Busy(config)]), Tracking(), map[]), Reconcile(100, 10));
            && Leaked(l, "p") == 1 && Tracked(l.sessions, "p") == 0
            && Find(l.registry, "p") == Some(Busy(config))
  {
    var before := Ledger(RegistryView([], [Busy(config)]), Tracking(), map[]);
    var stale := Stale(before.sessions, 100, 10);
    assert stale == {"s"} && Among(stale, before.sessions, "p") == {"s"};
    LeakedAfterSweep(before, stale, "p");
    assert TrackedOf(before.sessions - stale, "p") == {};
  }

  /** Such a sweep happens: a provider is enabled, acquired, disabled, and swept a tenth of a second
      later. Its count stays at one with no session tracked. */
  lemma SweepLeaksSlot(config: ProviderConfig)
    ensures var es := [Apply("p", config, true), Acquire("p", "s", 0), Apply("p", config, false), Reconcile(100, 10)];
            var l := Run(EMPTY, es);
            && DisciplinedRun(EMPTY, es)
            && Leaked(l, "p") == 1 && Tracked(l.sessions, "p") == 0
            && Find(l.registry, "p").Some? && Find(l.registry, "p").value.active == 1
  {
    var es := [Apply("p", config, true), Acquire("p", "s", 0), Apply("p", config, false), Reconcile(100, 10)];
    StepsBeforeSweep(config);
    SweepOfDisabled(config);
    assert es[..0] == [] && es[..4] == es;
    forall i | 0 <= i < 4 ensures Run(EMPTY, es[..i + 1]) == Step(Run(EMPTY, es[..i]), es[i]) {
      Extended(EMPTY, es, i);
    }
    assert Run(EMPTY, es[..1]) == Step(EMPTY, es[0]) && Run(EMPTY, es[..2]) == Step(Run(EMPTY, es[..1]), es[1]);
    assert Run(EMPTY, es[..3]) == Step(Run(EMPTY, es[..2]), es[2]);
  }

  lemma Extended(l: Ledger, es: seq<Event>, i: nat)
    requires i < |es|
    ensures Run(l, es[..i + 1]) == Step(Run(l, es[..i]), es[i])
  {
    assert es[..i + 1][..i] == es[..i];
  }

  lemma {:induction false} LeakedGrows(l: Ledger, es: seq<Event>, more: seq<Event>, id: ProviderId)
    ensures Leaked(Run(l, es), id) <= Leaked(Run(l, es + more), id)
  {
    if more == [] {
      assert es + more == es;
    } else {
      var earlier, last := more[..|more| - 1], more[|more| - 1];
      LeakedGrows(l, es, earlier, id);
      assert (es + more)[..|es + more| - 1] == es + earlier;
      LeakedStep(Run(l, es + earlier), last, id);
    }
  }

  /** More sessions are counted than tracked, and the provider cannot be removed. */
  ghost predicate CountedForGood(l: Ledger, id: ProviderId) {
    && Find(l.registry, id).Some? && Tracked(l.sessions, id) < Find(l.registry, id).value.active
    && Step(l, Remove(id)) == l
  }

  lemma LeakedIsCounted(l: Ledger, id: ProviderId)
    requires Balanced(l) && 0 < Leaked(l, id)
    ensures CountedForGood(l, id)
  {
    assert Settled(l, id);
  }

  /** Once a slot of a provider has leaked it can never be removed again: after every disciplined
      continuation of the run it is still registered, and a removal changes nothing. */
  lemma LeakedProviderCannotBeRemoved(es: seq<Event>, more: seq<Event>, id: ProviderId)
    requires 0 < Leaked(Run(EMPTY, es), id) && DisciplinedRun(EMPTY, es + more)
    ensures CountedForGood(Run(EMPTY, es + more), id)
  {
    LeakedGrows(EMPTY, es, more, id);
    EmptyIsBalanced();
    SlotConservation(EMPTY, es + more);
    LeakedIsCounted(Run(EMPTY, es + more), id);
  }

  /** An accepted acquisition keeps the balance exactly when its session id was not tracked. */
  lemma AcquireKeepsBalanceIff(l: Ledger, id: ProviderId, sid: SessionId, now: int)
    requires Balanced(l)
    requires Lookup(l.registry.enabled, id).Some? && !Full(Lookup(l.registry.enabled, id).value)
    ensures Balanced(Step(l, Acquire(id, sid, now))) <==> sid !in l.sessions
  {
    var e := Acquire(id, sid, now);
    if sid !in l.sessions {
      BalancedStep(l, e);
    } else {
      assert !Settled(Step(l, e), l.sessions[sid].providerId) by { DoubleAcquireUnsettles(l, id, sid, now); }
    }
  }

  /** Acquiring under a tracked session id loses sight of the session's earlier slot. */
  lemma DoubleAcquireUnsettles(l: Ledger, id: ProviderId, sid: SessionId, now: int)
    requires Balanced(l) && sid in l.sessions
    requires Lookup(l.registry.enabled, id).Some? && !Full(Lookup(l.registry.enabled, id).value)
    ensures !Settled(Step(l, Acquire(id, sid, now)), l.sessions[sid].providerId)
  {
    var e, holder := Acquire(id, sid, now), l.sessions[sid].providerId;
    assert Settled(l, holder);
    FindAfter(l, e, holder);
    TrackedAfterTakeover(l.sessions, sid, id, now, holder);
  }

  // ---------------------------------------------------------------- one session id acquired twice

  /** The same ledger but for the book-keeping of leaked slots, which no step looks at. */
  predicate SameSlotsHeld(l: Ledger, m: Ledger) {
    l.registry == m.registry && l.sessions == m.sessions
  }

  lemma StepIgnoresLeaked(l: Ledger, m: Ledger, e: Event)
    requires SameSlotsHeld(l, m)
    ensures SameSlotsHeld(Step(l, e), Step(m, e))
  {
  }

  lemma {:induction false} RunIgnoresLeaked(l: Ledger, m: Ledger, es: seq<Event>)
    requires SameSlotsHeld(l, m)
    ensures SameSlotsHeld(Run(l, es), Run(m, es))
  {
    if es != [] {
      RunIgnoresLeaked(l, m, es[..|es| - 1]);
      StepIgnoresLeaked(Run(l, es[..|es| - 1]), Run(m, es[..|es| - 1]), es[|es| - 1]);
    }
  }

  lemma DisciplineIgnoresLeaked(l: Ledger, m: Ledger, es: seq<Event>)
    requires SameSlotsHeld(l, m) && DisciplinedRun(l, es)
    ensures DisciplinedRun(m, es)
  {
    forall i | 0 <= i < |es| ensures Disciplined(Run(m, es[..i]), es[i]) {
      RunIgnoresLeaked(l, m, es[..i]);
      assert Disciplined(Run(l, es[..i]), es[i]);
    }
  }

  /** The ledger with one more slot of a provider booked as leaked. */
  function Booked(l: Ledger, id: ProviderId): Ledger {
    l.(leaked := l.leaked[id := Leaked(l, id) + 1])
  }

  /** Acquiring under a tracked session id loses exactly one slot of the earlier holder. */
  lemma DoubleAcquireLosesOne(l: Ledger, id: ProviderId, sid: SessionId, now: int)
    requires Balanced(l) && sid in l.sessions
    requires Lookup(l.registry.enabled, id).Some? && !Full(Lookup(l.registry.enabled, id).value)
    ensures Balanced(Booked(Step(l, Acquire(id, sid, now)), l.sessions[sid].providerId))
  {
    var e, holder := Acquire(id, sid, now), l.sessions[sid].providerId;
    KeysAfter(l, e);
    forall x ensures Settled(Booked(Step(l, e), holder), x) {
      assert Settled(l, x);
      FindAfter(l, e, x);
      TrackedAfterTakeover(l.sessions, sid, id, now, x);
    }
  }

  lemma TrackedAfterTakeover(s: Sessions, sid: SessionId, id: ProviderId, now: int, x: ProviderId)
    requires sid in s
    ensures Tracked(s[sid := Held(id, now)], x) + (if x == s[sid].providerId then 1 else 0) ==
            Tracked(s, x) + if x == id then 1 else 0
  {
    assert s[sid := Held(id, now)] == (s - {sid})[sid := Held(id, now)];
    TrackedAfterRelease(s, sid, x);
    TrackedAfterAcquire(s - {sid}, sid, id, now, x);
  }

  lemma LeakedStaysCounted(l: Ledger, more: seq<Event>, id: ProviderId)
    requires Balanced(l) && 0 < Leaked(l, id) && DisciplinedRun(l, more)
    ensures CountedForGood(Run(l, more), id)
  {
    assert 0 < Leaked(Run(l, more), id) by {
      LeakedGrows(l, [], more, id);
      assert [] + more == more && Run(l, []) == l;
    }
    SlotConservation(l, more);
    LeakedIsCounted(Run(l, more), id);
  }

  /** So the slot is never given back: after every disciplined continuation the earlier holder counts
      more sessions than it has, is still registered, and cannot be removed. */
  lemma DoubleAcquireLosesSlotForEver(l: Ledger, id: ProviderId, sid: SessionId, now: int, more: seq<Event>)
    requires Balanced(l) && sid in l.sessions
    requires Lookup(l.registry.enabled, id).Some? && !Full(Lookup(l.registry.enabled, id).value)
    requires DisciplinedRun(Step(l, Acquire(id, sid, now)), more)
    ensures CountedForGood(Run(Step(l, Acquire(id, sid, now)), more), l.sessions[sid].providerId)
  {
    var holder := l.sessions[sid].providerId;
    var after := Step(l, Acquire(id, sid, now));
    var booked := Booked(after, holder);
    assert CountedForGood(Run(booked, more), holder) by {
      DoubleAcquireLosesOne(l, id, sid, now);
      DisciplineIgnoresLeaked(after, booked, more);
      LeakedStaysCounted(booked, more, holder);
    }
    RunIgnoresLeaked(after, booked, more);
    SameCountedForGood(Run(booked, more), Run(after, more), holder);
  }

  lemma SameCountedForGood(l: Ledger, m: Ledger, id: ProviderId)
    requires SameSlotsHeld(l, m) && CountedForGood(l, id)
    ensures CountedForGood(m, id)
  {
  }

  /** It happens: a provider without ceiling is acquired twice under one session id, whose connections
      then both end. One slot stays counted with no session tracked. */
  lemma DoubleAcquireRun(config: ProviderConfig)
    requires config.maxConcurrent.None?
    ensures var enabled := Step(EMPTY, Apply("p", config, true));
            var twice := Step(Step(enabled, Acquire("p", "s", 0)), Acquire("p", "s", 1));
            var l := Step(Step(twice, Release("s", "p")), Release("s", "p"));
            && Tracked(l.sessions, "p") == 0
            && Find(l.registry, "p").Some? && Find(l.registry, "p").value.active == 1
  {
    var enabled := Step(EMPTY, Apply("p", config, true));
    var first := FreshProvider("p", config);
    assert enabled == Ledger(RegistryView([first], []), map[], map[]);
    var twice := Step(Step(enabled, Acquire("p", "s", 0)), Acquire("p", "s", 1));
    assert twice.registry == RegistryView([Taken(Taken(first))], []) && twice.sessions == map["s" := Held("p", 1)];
    var once := Step(twice, Release("s", "p"));
    assert once.registry == RegistryView([Taken(Taken(first)).(active := 1)], []) && once.sessions == map[];
    assert TrackedOf(once.sessions, "p") == {};
  }

  /** The release of a tracked session keeps the balance exactly when it names the holder. */
  lemma ReleaseKeepsBalanceIff(l: Ledger, sid: SessionId, id: ProviderId)
    requires Balanced(l) && sid in l.sessions && Find(l.registry, id).Some?
    ensures Balanced(Step(l, Release(sid, id))) <==> l.sessions[sid].providerId == id
  {
    var holder := l.sessions[sid].providerId;
    var e := Release(sid, id);
    if holder == id {
      BalancedStep(l, e);
    } else {
      FindAfter(l, e, holder);
      TrackedAfterRelease(l.sessions, sid, holder);
      assert Settled(l, holder);
      assert !Settled(Step(l, e), holder);
    }
  }

  /** A release that comes again, or after the sweep, changes nothing. */
  lemma LateReleaseChangesNothing(l: Ledger, sid: SessionId, id: ProviderId)
    ensures Step(Step(l, Release(sid, id)), Release(sid, id)) == Step(l, Release(sid, id))
    ensures sid !in l.sessions ==> Step(l, Release(sid, id)) == l
  {
  }

  // ---------------------------------------------------------------- ceilings

  predicate WithinCeiling(p: Provider) {
    var max := EffectiveMaxConcurrent(p);
    max.Some? && max.value != 0 ==> p.active <= max.value
  }

  /** The ceiling of a provider present before and after did not go down. */
  predicate CeilingKept(before: Provider, after: Provider) {
    var earlier, later := EffectiveMaxConcurrent(before), EffectiveMaxConcurrent(after);
    later.Some? && later.value != 0 ==> earlier.Some? && 0 < earlier.value <= later.value
  }

  ghost predicate CeilingsKept(l: Ledger, m: Ledger) {
    forall id :: Find(l.registry, id).Some? && Find(m.registry, id).Some? ==>
      CeilingKept(Find(l.registry, id).value, Find(m.registry, id).value)
  }

  ghost predicate AllWithinCeilings(l: Ledger) {
    WellKeyed(l.registry) && forall id :: Find(l.registry, id).Some? ==> WithinCeiling(Find(l.registry, id).value)
  }

  lemma CeilingStep(l: Ledger, e: Event)
    requires AllWithinCeilings(l) && CeilingsKept(l, Step(l, e))
    ensures AllWithinCeilings(Step(l, e))
  {
    KeysAfter(l, e);
    forall id | Find(Step(l, e).registry, id).Some?
      ensures WithinCeiling(Find(Step(l, e).registry, id).value)
    {
      FindAfter(l, e, id);
      if Find(l.registry, id).Some? {
        assert WithinCeiling(Find(l.registry, id).value);
      }
    }
  }

  /** While no ceiling is lowered, no provider is ever over its ceiling, whether or not the
      callers keep the discipline above. */
  lemma {:induction false} NeverOverCeiling(es: seq<Event>)
    requires forall i :: 0 <= i < |es| ==> CeilingsKept(Run(EMPTY, es[..i]), Step(Run(EMPTY, es[..i]), es[i]))
    ensures AllWithinCeilings(Run(EMPTY, es))
  {
    if es != [] {
      var earlier := es[..|es| - 1];
      forall i | 0 <= i < |earlier|
        ensures CeilingsKept(Run(EMPTY, earlier[..i]), Step(Run(EMPTY, earlier[..i]), earlier[i]))
      {
        assert earlier[..i] == es[..i];
      }
      NeverOverCeiling(earlier);
      assert es[..|es| - 1] == earlier;
      CeilingStep(Run(EMPTY, earlier), es[|es| - 1]);
    }
  }
}
