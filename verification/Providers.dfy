/** Provider records, as the routing code reads and updates them
    (src/core/types.ts and src/core/providers/effective.ts). */
module Providers {
  import opened Basics

  type ProviderId = string

  datatype ProviderConfig = ProviderConfig(
    priority: int,
    weight: Option<int>,
    maxConcurrent: Option<nat>,
    profile: Option<string>,
    multiProfile: bool)

  /** One provider record. Code that updates a field of the shared record in the source
      produces the updated record here, and the registry stores it back. */
  datatype Provider = Provider(
    id: ProviderId,
    config: ProviderConfig,
    active: nat,
    healthy: bool,
    cooldownUntil: Option<int>,
    failureCount: nat,
    successCount: nat,
    lastFailure: Option<int>,
    avgLatencyMs: real,
    totalConnections: nat,
    browserserve: bool,
    discoveredMaxConcurrent: Option<nat>)

  function FreshProvider(id: ProviderId, config: ProviderConfig): Provider {
    Provider(id, config, 0, true, None, 0, 0, None, 0.0, 0, false, None)
  }

  function Weight(p: Provider): int {
    p.config.weight.GetOr(1)
  }

  /** Explicit configuration wins over the advertised capacity; neither means unlimited. */
  function EffectiveMaxConcurrent(p: Provider): Option<nat> {
    if p.config.maxConcurrent.Some? then p.config.maxConcurrent else p.discoveredMaxConcurrent
  }

  /** A ceiling of zero is falsy in the source and so counts as no ceiling. */
  predicate HasFreeSlot(p: Provider) {
    var max := EffectiveMaxConcurrent(p);
    max.None? || max.value == 0 || p.active < max.value
  }

  /** The configuration-only check used before queueing. */
  predicate EligibleForProfile(config: ProviderConfig, requested: Option<string>) {
    config.multiProfile || config.profile.None? || config.profile == requested
  }

  /** The runtime check used when routing. */
  predicate EligibleProviderForProfile(p: Provider, requested: Option<string>) {
    p.browserserve || p.config.profile.None? || p.config.profile == requested
  }

  function Ids(ps: seq<Provider>): (ids: seq<ProviderId>)
    ensures |ids| == |ps|
    ensures forall i :: 0 <= i < |ps| ==> ids[i] == ps[i].id
  {
    seq(|ps|, i requires 0 <= i < |ps| => ps[i].id)
  }

  /** No identifier twice: the registry is keyed by identifier. */
  predicate DistinctIds(ps: seq<Provider>) {
    forall i, j :: 0 <= i < j < |ps| ==> ps[i].id != ps[j].id
  }
}
