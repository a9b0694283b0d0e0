/** The provider registry (src/core/providers/registry.ts): enabled and disabled providers,
    each a dictionary in insertion order. Capability probing is not modelled. */
module Registry {
  import opened Basics
  import opened Providers

  // ---------------------------------------------------------------- ordered dictionaries of records

  function Lookup(ps: seq<Provider>, id: ProviderId): (r: Option<Provider>)
    ensures r.Some? ==> r.value in ps && r.value.id == id
    ensures r.None? <==> forall i :: 0 <= i < |ps| ==> ps[i].id != id
  {
    if ps == [] then None else if ps[0].id == id then Some(ps[0]) else Lookup(ps[1..], id)
  }

  /** Sets an entry: in place when the key is there, at the end otherwise. */
  function Put(ps: seq<Provider>, p: Provider): (r: seq<Provider>)
    ensures Lookup(ps, p.id).Some? ==> |r| == |ps|
    ensures Lookup(ps, p.id).None? ==> r == ps + [p]
  {
    if ps == [] then [p] else if ps[0].id == p.id then [p] + ps[1..] else [ps[0]] + Put(ps[1..], p)
  }

  function Drop(ps: seq<Provider>, id: ProviderId): (r: seq<Provider>)
    ensures |r| <= |ps|
    ensures Lookup(ps, id).None? ==> r == ps
  {
    if ps == [] then [] else if ps[0].id == id then ps[1..] else [ps[0]] + Drop(ps[1..], id)
  }

  lemma {:induction false} LookupPut(ps: seq<Provider>, p: Provider, id: ProviderId)
    ensures Lookup(Put(ps, p), id) == if id == p.id then Some(p) else Lookup(ps, id)
  {
    if ps != [] && ps[0].id != p.id {
      LookupPut(ps[1..], p, id);
    }
  }

  lemma {:induction false} LookupDrop(ps: seq<Provider>, dropped: ProviderId, id: ProviderId)
    requires DistinctIds(ps)
    ensures Lookup(Drop(ps, dropped), id) == if id == dropped then None else Lookup(ps, id)
  {
    if ps != [] && ps[0].id != dropped {
      LookupDrop(ps[1..], dropped, id);
    }
  }

  /** Both dictionaries, seen as records. */
  datatype RegistryView = RegistryView(enabled: seq<Provider>, disabled: seq<Provider>)

  /** No provider is registered twice, in the same or in both dictionaries. */
  ghost predicate WellKeyed(r: RegistryView) {
    && DistinctIds(r.enabled)
    && DistinctIds(r.disabled)
    && forall p, q :: p in r.enabled && q in r.disabled ==> p.id != q.id
  }

  function Find(r: RegistryView, id: ProviderId): Option<Provider> {
    var live := Lookup(r.enabled, id);
    if live.Some? then live else Lookup(r.disabled, id)
  }

  function Registered(r: RegistryView, id: ProviderId, config: ProviderConfig): RegistryView {
    RegistryView(Put(r.enabled, FreshProvider(id, config)), Drop(r.disabled, id))
  }

  function Disabled(r: RegistryView, id: ProviderId, config: ProviderConfig): RegistryView {
    var state := Find(r, id).GetOr(FreshProvider(id, config));
    RegistryView(Drop(r.enabled, id), Put(r.disabled, state.(config := config)))
  }

  function Enabled(r: RegistryView, id: ProviderId, config: ProviderConfig): RegistryView {
    var held := Lookup(r.disabled, id);
    var live := Lookup(r.enabled, id);
    if held.Some? then
      RegistryView(Put(r.enabled, held.value.(config := config)), Drop(r.disabled, id))
    else if live.Some? then
      r.(enabled := Put(r.enabled, live.value.(config := config)))
    else
      Registered(r, id, config)
  }

  /** Replaces the record of a registered provider. */
  function Stored(r: RegistryView, p: Provider): RegistryView {
    if Lookup(r.enabled, p.id).Some? then r.(enabled := Put(r.enabled, p)) else r.(disabled := Put(r.disabled, p))
  }

  function Removed(r: RegistryView, id: ProviderId): RegistryView {
    RegistryView(Drop(r.enabled, id), Drop(r.disabled, id))
  }

  lemma LookupAt(ps: seq<Provider>, i: nat)
    requires i < |ps| && DistinctIds(ps)
    ensures Lookup(ps, ps[i].id) == Some(ps[i])
  {
  }

  lemma {:induction false} PutAt(ps: seq<Provider>, i: nat, p: Provider)
    requires i < |ps| && DistinctIds(ps) && ps[i].id == p.id
    ensures Put(ps, p) == ps[i := p]
  {
    if i != 0 {
      PutAt(ps[1..], i - 1, p);
    }
  }

  lemma {:induction false} PutSame(ps: seq<Provider>, id: ProviderId)
    ensures Lookup(ps, id).Some? ==> Put(ps, Lookup(ps, id).value) == ps
  {
    if ps != [] && ps[0].id != id {
      PutSame(ps[1..], id);
    }
  }

  lemma {:induction false} PutDistinct(ps: seq<Provider>, p: Provider)
    requires DistinctIds(ps)
    ensures DistinctIds(Put(ps, p))
    ensures forall q :: q in Put(ps, p) ==> q == p || (q in ps && q.id != p.id)
  {
    if ps != [] && ps[0].id != p.id {
      PutDistinct(ps[1..], p);
    }
  }

  lemma {:induction false} DropDistinct(ps: seq<Provider>, id: ProviderId)
    requires DistinctIds(ps)
    ensures DistinctIds(Drop(ps, id))
    ensures forall q :: q in Drop(ps, id) ==> q in ps && q.id != id
  {
    if ps != [] && ps[0].id != id {
      DropDistinct(ps[1..], id);
    }
  }

  /** Every registry operation keeps the keys unique. */
  lemma OperationsKeepKeys(r: RegistryView, id: ProviderId, config: ProviderConfig)
    requires WellKeyed(r)
    ensures WellKeyed(Registered(r, id, config))
    ensures WellKeyed(Disabled(r, id, config))
    ensures WellKeyed(Enabled(r, id, config))
    ensures WellKeyed(Removed(r, id))
  {
    var blank := FreshProvider(id, config);
    var held := Find(r, id).GetOr(blank).(config := config);
    PutDistinct(r.enabled, blank);
    PutDistinct(r.enabled, held);
    PutDistinct(r.disabled, held);
    DropDistinct(r.enabled, id);
    DropDistinct(r.disabled, id);
  }

  lemma StoreKeepsKeys(r: RegistryView, p: Provider)
    requires WellKeyed(r) && Find(r, p.id).Some?
    ensures WellKeyed(Stored(r, p))
    ensures forall id :: Find(Stored(r, p), id) == if id == p.id then Some(p) else Find(r, id)
  {
    PutDistinct(r.enabled, p);
    PutDistinct(r.disabled, p);
    forall id ensures Find(Stored(r, p), id) == if id == p.id then Some(p) else Find(r, id) {
      FindStored(r, p, id);
    }
  }

  lemma FindStored(r: RegistryView, p: Provider, id: ProviderId)
    requires Find(r, p.id).Some?
    ensures Find(Stored(r, p), id) == if id == p.id then Some(p) else Find(r, id)
  {
    LookupPut(r.enabled, p, id);
    LookupPut(r.disabled, p, id);
  }

  /** Disabling and enabling again keeps everything but the configuration, slot count included. */
  lemma DisableThenEnable(r: RegistryView, id: ProviderId, c1: ProviderConfig, c2: ProviderConfig)
    requires WellKeyed(r) && Find(r, id).Some?
    ensures Find(Enabled(Disabled(r, id, c1), id, c2), id) == Some(Find(r, id).value.(config := c2))
    ensures forall other :: other != id ==> Find(Enabled(Disabled(r, id, c1), id, c2), other) == Find(r, other)
  {
    var held := Find(r, id).value;
    var d := Disabled(r, id, c1);
    OperationsKeepKeys(r, id, c1);
    forall other
      ensures Lookup(d.enabled, other) == if other == id then None else Lookup(r.enabled, other)
      ensures Lookup(d.disabled, other) == if other == id then Some(held.(config := c1)) else Lookup(r.disabled, other)
    {
      LookupDrop(r.enabled, id, other);
      LookupPut(r.disabled, held.(config := c1), other);
    }
    forall other
      ensures Find(Enabled(d, id, c2), other) == if other == id then Some(held.(config := c2)) else Find(r, other)
    {
      LookupPut(d.enabled, held.(config := c2), other);
      LookupDrop(d.disabled, id, other);
    }
  }

  // ---------------------------------------------------------------- the registry object

  class ProviderRegistry {
    var providers: seq<Provider>
    var disabled: seq<Provider>

    ghost predicate Valid()
      reads this
    {
      WellKeyed(View())
    }

    function View(): RegistryView
      reads this
    {
      RegistryView(providers, disabled)
    }

    constructor ()
      ensures Valid() && View() == RegistryView([], [])
    {
      providers, disabled := [], [];
    }

    method Get(id: ProviderId) returns (p: Option<Provider>)
      ensures p == Lookup(providers, id)
    {
      for i := 0 to |providers|
        invariant Lookup(providers, id) == Lookup(providers[i..], id)
      {
        assert providers[i..][0] == providers[i] && providers[i..][1..] == providers[i + 1..];
        if providers[i].id == id {
          return Some(providers[i]);
        }
      }
      return None;
    }

    method GetIncludingDisabled(id: ProviderId) returns (p: Option<Provider>)
      ensures p == Find(View(), id)
    {
      p := Get(id);
      if p.None? {
        p := Lookup(disabled, id);
      }
    }

    /** Stores an updated record back where it lives. */
    method Store(p: Provider)
      requires Valid() && Find(View(), p.id).Some?
      modifies this
      ensures Valid() && View() == Stored(old(View()), p)
    {
      StoreKeepsKeys(View(), p);
      if Lookup(providers, p.id).Some? {
        providers := Put(providers, p);
      } else {
        disabled := Put(disabled, p);
      }
    }

    method Register(id: ProviderId, config: ProviderConfig)
      requires Valid()
      modifies this
      ensures Valid() && View() == Registered(old(View()), id, config)
    {
      OperationsKeepKeys(View(), id, config);
      disabled := Drop(disabled, id);
      providers := Put(providers, FreshProvider(id, config));
    }

    method Disable(id: ProviderId, config: ProviderConfig)
      requires Valid()
      modifies this
      ensures Valid() && View() == Disabled(old(View()), id, config)
    {
      OperationsKeepKeys(View(), id, config);
      var found := GetIncludingDisabled(id);
      var state := found.GetOr(FreshProvider(id, config));
      state := state.(config := config);
      providers := Drop(providers, id);
      disabled := Put(disabled, state);
    }

    method Enable(id: ProviderId, config: ProviderConfig)
      requires Valid()
      modifies this
      ensures Valid() && View() == Enabled(old(View()), id, config)
    {
      OperationsKeepKeys(View(), id, config);
      var state := Lookup(disabled, id);
      if state.None? {
        var live := Get(id);
        if live.Some? {
          providers := Put(providers, live.value.(config := config));
        } else {
          Register(id, config);
        }
        return;
      }
      disabled := Drop(disabled, id);
      providers := Put(providers, state.value.(config := config));
    }

    method Remove(id: ProviderId) returns (existed: bool)
      requires Valid()
      modifies this
      ensures Valid() && View() == Removed(old(View()), id)
      ensures existed == Find(old(View()), id).Some?
    {
      DropDistinct(providers, id);
      DropDistinct(disabled, id);
      existed := Lookup(disabled, id).Some? || Lookup(providers, id).Some?;
      disabled := Drop(disabled, id);
      providers := Drop(providers, id);
    }
  }
}
