/** What the operations on slots and on the registry do to each record, on its own fields. */
module Slots {
  import opened Basics
  import opened Providers
  import opened Registry
  import opened Concurrency

  // ---------------------------------------------------------------- slots

  /** A ceiling, its own or else an advertised one, that the provider has reached. */
  predicate AtCeiling(p: Provider) {
    match p.config.maxConcurrent
    case Some(max) => max != 0 && max <= p.active
    case None =>
      p.discoveredMaxConcurrent.Some? && p.discoveredMaxConcurrent.value != 0 &&
      p.discoveredMaxConcurrent.value <= p.active
  }

  /** What refuses a slot is exactly what routing calls not free. */
  lemma FullMeaning(p: Provider)
    ensures Full(p) <==> !HasFreeSlot(p)
    ensures Full(p) <==> AtCeiling(p)
  {
  }

  /** An enabled provider below its ceiling is always accepted, under the session's own name and the
      present time; any other request changes nothing. */
  lemma AcquireMeaning(l: Ledger, id: ProviderId, sid: SessionId, now: int)
    ensures var p, q := Lookup(l.registry.enabled, id), Step(l, Acquire(id, sid, now));
            if p.None? || AtCeiling(p.value) then q == l
            else
              && q.sessions == l.sessions[sid := Held(id, now)]
              && q.registry.disabled == l.registry.disabled && q.leaked == l.leaked
              && forall other :: Lookup(q.registry.enabled, other) ==
                   if other == id
                   then Some(p.value.(active := p.value.active + 1, totalConnections := p.value.totalConnections + 1))
                   else Lookup(l.registry.enabled, other)
  {
    var p := Lookup(l.registry.enabled, id);
    if p.Some? && !AtCeiling(p.value) {
      PutPlaces(l.registry.enabled, Taken(p.value));
    }
  }

  /** Releasing a tracked session forgets it and frees one slot of the provider named, enabled or not;
      releasing any other changes nothing. */
  lemma ReleaseMeaning(l: Ledger, id: ProviderId, sid: SessionId)
    ensures var p, q := Find(l.registry, id), Step(l, Release(sid, id));
            if p.None? || sid !in l.sessions then q == l
            else
              && q.sessions == l.sessions - {sid} && q.leaked == l.leaked
              && forall other :: Find(q.registry, other) ==
                   if other == id
                   then Some(p.value.(active := if p.value.active == 0 then 0 else p.value.active - 1))
                   else Find(l.registry, other)
  {
    var p := Find(l.registry, id);
    if p.Some? && sid in l.sessions {
      forall other
        ensures Find(Stored(l.registry, Freed(p.value, 1)), other) ==
                if other == id then Some(Freed(p.value, 1)) else Find(l.registry, other)
      {
        FindStored(l.registry, Freed(p.value, 1), other);
      }
    }
  }

  /** The stale sessions of one provider. */
  function StaleOf(s: Sessions, id: ProviderId, now: int, maxAgeMs: int): set<SessionId> {
    set sid | sid in s && s[sid].providerId == id && s[sid].timestamp < now - maxAgeMs
  }

  /** A sweep forgets exactly the sessions older than the limit and frees a slot for each on its
      provider, if that one is enabled; a session no older survives, and a disabled provider's record
      stays as it is. */
  lemma SweepMeaning(l: Ledger, now: int, maxAgeMs: int)
    ensures var q := Step(l, Reconcile(now, maxAgeMs));
            && (forall sid :: sid in q.sessions <==> sid in l.sessions && now - l.sessions[sid].timestamp <= maxAgeMs)
            && (forall sid :: sid in q.sessions ==> q.sessions[sid] == l.sessions[sid])
            && q.registry.disabled == l.registry.disabled
            && |q.registry.enabled| == |l.registry.enabled|
            && forall i :: 0 <= i < |l.registry.enabled| ==>
                 FreedBy(l.registry.enabled[i], q.registry.enabled[i],
                         |StaleOf(l.sessions, l.registry.enabled[i].id, now, maxAgeMs)|)
  {
    var stale := Stale(l.sessions, now, maxAgeMs);
    forall i | 0 <= i < |l.registry.enabled|
      ensures FreedBy(l.registry.enabled[i], Step(l, Reconcile(now, maxAgeMs)).registry.enabled[i],
                      |StaleOf(l.sessions, l.registry.enabled[i].id, now, maxAgeMs)|)
    {
      var id := l.registry.enabled[i].id;
      assert Among(stale, l.sessions, id) == StaleOf(l.sessions, id, now, maxAgeMs);
    }
  }

  /** The same record with n slots fewer taken, not below zero. */
  predicate FreedBy(before: Provider, after: Provider, n: nat) {
    after == before.(active := if before.active < n then 0 else before.active - n)
  }

  // ---------------------------------------------------------------- where a record is

  /** The record of one identifier in the two dictionaries, and every other as it was. */
  ghost predicate Placed(r: RegistryView, q: RegistryView, id: ProviderId, enabled: Option<Provider>,
                         disabled: Option<Provider>)
  {
    && (forall other :: Lookup(q.enabled, other) == if other == id then enabled else Lookup(r.enabled, other))
    && (forall other :: Lookup(q.disabled, other) == if other == id then disabled else Lookup(r.disabled, other))
  }

  lemma PutPlaces(ps: seq<Provider>, p: Provider)
    ensures forall other :: Lookup(Put(ps, p), other) == if other == p.id then Some(p) else Lookup(ps, other)
  {
    forall other ensures Lookup(Put(ps, p), other) == if other == p.id then Some(p) else Lookup(ps, other) {
      LookupPut(ps, p, other);
    }
  }

  lemma DropPlaces(ps: seq<Provider>, id: ProviderId)
    requires DistinctIds(ps)
    ensures forall other :: Lookup(Drop(ps, id), other) == if other == id then None else Lookup(ps, other)
  {
    forall other ensures Lookup(Drop(ps, id), other) == if other == id then None else Lookup(ps, other) {
      LookupDrop(ps, id, other);
    }
  }

  /** Registering starts a new record, and removing leaves none, in either dictionary. */
  lemma RegisterMeaning(r: RegistryView, id: ProviderId, config: ProviderConfig)
    requires WellKeyed(r)
    ensures Placed(r, Registered(r, id, config), id,
                   Some(Provider(id, config, 0, true, None, 0, 0, None, 0.0, 0, false, None)), None)
    ensures Placed(r, Removed(r, id), id, None, None)
  {
    PutPlaces(r.enabled, FreshProvider(id, config));
    DropPlaces(r.enabled, id);
    DropPlaces(r.disabled, id);
  }

  /** Disabling carries the record over to the disabled ones with the new configuration, or starts one
      there. */
  lemma DisableMeaning(r: RegistryView, id: ProviderId, config: ProviderConfig)
    requires WellKeyed(r)
    ensures Placed(r, Disabled(r, id, config), id, None, Some(Carried(r, id, config)))
  {
    PutPlaces(r.disabled, Carried(r, id, config));
    DropPlaces(r.enabled, id);
  }

  /** Enabling carries it over to the enabled ones, slot count included, or starts one there. */
  lemma EnableMeaning(r: RegistryView, id: ProviderId, config: ProviderConfig)
    requires WellKeyed(r)
    ensures Placed(r, Enabled(r, id, config), id, Some(Carried(r, id, config)), None)
  {
    InNoneOrOne(r, id);
    PutPlaces(r.enabled, Carried(r, id, config));
    DropPlaces(r.disabled, id);
  }

  /** The record that was there, with the new configuration, or else a new one. */
  function Carried(r: RegistryView, id: ProviderId, config: ProviderConfig): Provider {
    if Find(r, id).Some? then Find(r, id).value.(config := config)
    else Provider(id, config, 0, true, None, 0, 0, None, 0.0, 0, false, None)
  }

  lemma InNoneOrOne(r: RegistryView, id: ProviderId)
    requires WellKeyed(r)
    ensures Lookup(r.enabled, id).None? || Lookup(r.disabled, id).None?
  {
  }

  /** A configuration that is applied moves the record to the enabled or the disabled providers, as it
      says. */
  lemma ApplyMeaning(l: Ledger, id: ProviderId, config: ProviderConfig, enabled: bool)
    requires WellKeyed(l.registry)
    ensures var r, q := l.registry, Step(l, Apply(id, config, enabled)).registry;
            if enabled then Placed(r, q, id, Some(Carried(r, id, config)), None)
            else Placed(r, q, id, None, Some(Carried(r, id, config)))
  {
    if enabled {
      EnableMeaning(l.registry, id, config);
    } else {
      DisableMeaning(l.registry, id, config);
    }
  }

  /** A provider is taken out of the registry exactly if no slot of it is taken. */
  lemma RemoveMeaning(l: Ledger, id: ProviderId)
    requires WellKeyed(l.registry)
    ensures var p, q := Find(l.registry, id), Step(l, Remove(id));
            if p.Some? && p.value.active != 0 then q == l
            else q.sessions == l.sessions && Placed(l.registry, q.registry, id, None, None)
  {
    DropPlaces(l.registry.enabled, id);
    DropPlaces(l.registry.disabled, id);
  }
}
