/** Failure tracking and cooldown (src/core/tracking/cooldown.ts). */
module Cooldown {
  import opened Basics
  import opened Providers

  datatype CooldownConfig = CooldownConfig(defaultMs: int, failureThreshold: real, minRequestVolume: int)

  const WINDOW_MS := 60_000

  type Timestamps = map<ProviderId, seq<int>>

  /** The two timestamp stores of a tracker. */
  datatype Stores = Stores(failures: Timestamps, successes: Timestamps)

  function Entries(store: Timestamps, id: ProviderId): seq<int> {
    if id in store then store[id] else []
  }

  /** The entries strictly inside the window that ends at `now`. */
  function Recent(ts: seq<int>, now: int): seq<int> {
    if ts == [] then [] else
      Recent(ts[..|ts| - 1], now) + if ts[|ts| - 1] > now - WINDOW_MS then [ts[|ts| - 1]] else []
  }

  /** An unset or zero deadline counts as no cooldown. */
  predicate HasDeadline(p: Provider) {
    p.cooldownUntil.Some? && p.cooldownUntil.value != 0
  }

  predicate InCooldown(p: Provider, now: int) {
    HasDeadline(p) && now < p.cooldownUntil.value
  }

  /** What asking about the cooldown does to the record: a deadline that has passed is cleared. */
  function Refresh(p: Provider, now: int): (r: Provider)
    ensures InCooldown(r, now) == InCooldown(p, now)
  {
    if HasDeadline(p) && p.cooldownUntil.value <= now then p.(cooldownUntil := None, healthy := true) else p
  }

  predicate Trips(cfg: CooldownConfig, fails: nat, wins: nat)
    requires 0 < fails
  {
    cfg.minRequestVolume <= fails + wins && fails as real / (fails + wins) as real >= cfg.failureThreshold
  }

  function Tripped(cfg: CooldownConfig, p: Provider, fails: nat, wins: nat, now: int): Provider
    requires 0 < fails
  {
    if Trips(cfg, fails, wins) then p.(cooldownUntil := Some(now + cfg.defaultMs), healthy := false) else p
  }

  function AfterFailure(cfg: CooldownConfig, p: Provider, fails: nat, wins: nat, now: int): Provider
    requires 0 < fails
  {
    Tripped(cfg, p.(failureCount := p.failureCount + 1, lastFailure := Some(now)), fails, wins, now)
  }

  function AfterSuccess(p: Provider, now: int): Provider {
    Refresh(p.(successCount := p.successCount + 1), now)
  }

  /** The tracker. `Date.now()` is the argument `now`. */
  class CooldownTracker {
    const config: CooldownConfig
    var failures: Timestamps
    var successes: Timestamps

    constructor (config: CooldownConfig)
      ensures this.config == config && Snapshot() == Stores(map[], map[])
    {
      this.config := config;
      failures, successes := map[], map[];
    }

    function Snapshot(): Stores
      reads this
    {
      Stores(failures, successes)
    }

    /** Prunes one provider's list and returns it, as stored. */
    static method GetWindow(store: Timestamps, id: ProviderId, now: int)
      returns (pruned: Timestamps, window: seq<int>)
      ensures window == Recent(Entries(store, id), now)
      ensures pruned == store[id := window]
    {
      var entries := Entries(store, id);
      window := [];
      for i := 0 to |entries|
        invariant window == Recent(entries[..i], now)
      {
        assert entries[..i + 1][..i] == entries[..i];
        if entries[i] > now - WINDOW_MS {
          window := window + [entries[i]];
        }
      }
      assert entries[..|entries|] == entries;
      pruned := store[id := window];
    }

    method RecordFailure(provider: Provider, now: int) returns (updated: Provider)
      modifies this
      ensures (Snapshot(), updated) == LazyFailure(config, old(Snapshot()), provider, now)
    {
      ghost var before := failures;
      var fails, wins;
      failures, fails := GetWindow(failures, provider.id, now);
      fails := fails + [now];
      failures := failures[provider.id := fails];
      assert failures == before[provider.id := fails];
      updated := provider.(failureCount := provider.failureCount + 1, lastFailure := Some(now));
      successes, wins := GetWindow(successes, provider.id, now);
      updated := TripIfDue(updated, |fails|, |wins|, now);
    }

    /** The tail of recordFailure: open the cooldown once the failure rate reaches the threshold. */
    method TripIfDue(provider: Provider, fails: nat, wins: nat, now: int) returns (updated: Provider)
      requires 0 < fails
      ensures updated == Tripped(config, provider, fails, wins, now)
    {
      if fails + wins < config.minRequestVolume {
        return provider;
      }
      var failureRate := fails as real / (fails + wins) as real;
      if failureRate >= config.failureThreshold {
        return provider.(cooldownUntil := Some(now + config.defaultMs), healthy := false);
      }
      return provider;
    }

    method RecordSuccess(provider: Provider, now: int) returns (updated: Provider)
      modifies this
      ensures (Snapshot(), updated) == LazySuccess(old(Snapshot()), provider, now)
    {
      ghost var before := successes;
      var wins;
      successes, wins := GetWindow(successes, provider.id, now);
      wins := wins + [now];
      successes := successes[provider.id := wins];
      assert successes == before[provider.id := wins];
      updated := provider.(successCount := provider.successCount + 1);
      if provider.cooldownUntil.Some? && provider.cooldownUntil.value != 0 && now >= provider.cooldownUntil.value {
        updated := updated.(cooldownUntil := None, healthy := true);
      }
    }

    /** Answers, and clears a deadline that has passed. */
    static method IsInCooldown(provider: Provider, now: int) returns (cooling: bool, updated: Provider)
      ensures cooling == InCooldown(provider, now)
      ensures updated == Refresh(provider, now)
    {
      if provider.cooldownUntil.None? || provider.cooldownUntil.value == 0 {
        return false, provider;
      }
      if now >= provider.cooldownUntil.value {
        return false, provider.(cooldownUntil := None, healthy := true);
      }
      return true, provider;
    }
  }

  // ---------------------------------------------------------------- the pruned tracker and the full history

  function LazyFailure(cfg: CooldownConfig, s: Stores, p: Provider, now: int): (Stores, Provider) {
    var fails := Recent(Entries(s.failures, p.id), now) + [now];
    var wins := Recent(Entries(s.successes, p.id), now);
    (Stores(s.failures[p.id := fails], s.successes[p.id := wins]),
     AfterFailure(cfg, p, |fails|, |wins|, now))
  }

  function LazySuccess(s: Stores, p: Provider, now: int): (Stores, Provider) {
    (s.(successes := s.successes[p.id := Recent(Entries(s.successes, p.id), now) + [now]]),
     AfterSuccess(p, now))
  }

  /** The reference: nothing is ever forgotten and every count filters the whole history. */
  function FullFailure(cfg: CooldownConfig, s: Stores, p: Provider, now: int): (Stores, Provider) {
    var fails := Entries(s.failures, p.id) + [now];
    (s.(failures := s.failures[p.id := fails]),
     AfterFailure(cfg, p, |Recent(Entries(s.failures, p.id), now)| + 1, |Recent(Entries(s.successes, p.id), now)|, now))
  }

  function FullSuccess(s: Stores, p: Provider, now: int): (Stores, Provider) {
    (s.(successes := s.successes[p.id := Entries(s.successes, p.id) + [now]]), AfterSuccess(p, now))
  }

  datatype Event =
    | Failure(id: ProviderId, at: int)
    | Success(id: ProviderId, at: int)
    | Query(id: ProviderId, at: int)

  datatype Tracked = Tracked(stores: Stores, providers: map<ProviderId, Provider>)

  /** The registry is keyed by identifier. */
  predicate Keyed(t: Tracked) {
    forall id :: id in t.providers ==> t.providers[id].id == id
  }

  /** An event about an unregistered provider changes nothing. */
  function LazyStep(cfg: CooldownConfig, t: Tracked, e: Event): Tracked {
    if e.id !in t.providers then t else
      var p := t.providers[e.id];
      match e
      case Failure(id, now) =>
        var (s, q) := LazyFailure(cfg, t.stores, p, now);
        Tracked(s, t.providers[id := q])
      case Success(id, now) =>
        var (s, q) := LazySuccess(t.stores, p, now);
        Tracked(s, t.providers[id := q])
      case Query(id, now) => t.(providers := t.providers[id := Refresh(p, now)])
  }

  function FullStep(cfg: CooldownConfig, t: Tracked, e: Event): Tracked {
    if e.id !in t.providers then t else
      var p := t.providers[e.id];
      match e
      case Failure(id, now) =>
        var (s, q) := FullFailure(cfg, t.stores, p, now);
        Tracked(s, t.providers[id := q])
      case Success(id, now) =>
        var (s, q) := FullSuccess(t.stores, p, now);
        Tracked(s, t.providers[id := q])
      case Query(id, now) => t.(providers := t.providers[id := Refresh(p, now)])
  }

  function LazyRun(cfg: CooldownConfig, t: Tracked, es: seq<Event>): Tracked {
    if es == [] then t else LazyStep(cfg, LazyRun(cfg, t, es[..|es| - 1]), es[|es| - 1])
  }

  function FullRun(cfg: CooldownConfig, t: Tracked, es: seq<Event>): Tracked {
    if es == [] then t else FullStep(cfg, FullRun(cfg, t, es[..|es| - 1]), es[|es| - 1])
  }

  /** A clock that never goes back, starting no earlier than `start`. */
  predicate Nondecreasing(es: seq<Event>, start: int) {
    && (forall i :: 0 <= i < |es| ==> start <= es[i].at)
    && (forall i, j :: 0 <= i < j < |es| ==> es[i].at <= es[j].at)
  }

  function Clock(es: seq<Event>, start: int): int {
    if es == [] then start else es[|es| - 1].at
  }

  /** From `clock` on the two lists have the same recent entries. */
  ghost predicate SameWindows(a: seq<int>, b: seq<int>, clock: int) {
    forall now :: clock <= now ==> Recent(a, now) == Recent(b, now)
  }

  lemma {:induction false} RecentOfRecent(ts: seq<int>, a: int, b: int)
    requires a <= b
    ensures Recent(Recent(ts, a), b) == Recent(ts, b)
  {
    if ts != [] {
      var front, t := ts[..|ts| - 1], ts[|ts| - 1];
      RecentOfRecent(front, a, b);
      assert Recent(ts, a) == Recent(front, a) + if t > a - WINDOW_MS then [t] else [];
      assert Recent(front, a) + [] == Recent(front, a) && Recent(front, b) + [] == Recent(front, b);
      if t > a - WINDOW_MS {
        RecentAppend(Recent(front, a), t, b);
      }
    }
  }

  lemma RecentAppend(ts: seq<int>, t: int, now: int)
    ensures Recent(ts + [t], now) == Recent(ts, now) + if t > now - WINDOW_MS then [t] else []
  {
  }

  lemma PruneKeeps(a: seq<int>, b: seq<int>, clock: int, now: int)
    requires SameWindows(a, b, clock) && clock <= now
    ensures SameWindows(Recent(a, now), b, now)
    ensures SameWindows(Recent(a, now) + [now], b + [now], now)
  {
    forall later | now <= later
      ensures Recent(Recent(a, now), later) == Recent(b, later)
      ensures Recent(Recent(a, now) + [now], later) == Recent(b + [now], later)
    {
      RecentOfRecent(a, now, later);
      RecentAppend(Recent(a, now), now, later);
      RecentAppend(b, now, later);
    }
  }

  /** The pruned tracker and the reference agree on every provider and every window from `clock` on. */
  ghost predicate Agree(l: Tracked, f: Tracked, clock: int) {
    && l.providers == f.providers
    && Keyed(l)
    && (forall id :: SameWindows(Entries(l.stores.failures, id), Entries(f.stores.failures, id), clock))
    && (forall id :: SameWindows(Entries(l.stores.successes, id), Entries(f.stores.successes, id), clock))
  }

  lemma AgreeStep(cfg: CooldownConfig, l: Tracked, f: Tracked, clock: int, e: Event)
    requires Agree(l, f, clock) && clock <= e.at
    ensures Agree(LazyStep(cfg, l, e), FullStep(cfg, f, e), e.at)
  {
    var l', f' := LazyStep(cfg, l, e), FullStep(cfg, f, e);
    if e.id in l.providers {
      PruneKeeps(Entries(l.stores.failures, e.id), Entries(f.stores.failures, e.id), clock, e.at);
      PruneKeeps(Entries(l.stores.successes, e.id), Entries(f.stores.successes, e.id), clock, e.at);
    }
    forall id
      ensures SameWindows(Entries(l'.stores.failures, id), Entries(f'.stores.failures, id), e.at)
      ensures SameWindows(Entries(l'.stores.successes, id), Entries(f'.stores.successes, id), e.at)
    {
      assert SameWindows(Entries(l.stores.failures, id), Entries(f.stores.failures, id), clock);
      assert SameWindows(Entries(l.stores.successes, id), Entries(f.stores.successes, id), clock);
    }
  }

  /** Window refinement. With a clock that never goes back, after any mix of failures, successes
      and queries over any providers, the lazily pruned lists and the full history give every
      provider the same record, deadline included, and the same window at every later time. */
  lemma {:induction false} WindowRefinement(cfg: CooldownConfig, t: Tracked, es: seq<Event>, start: int)
    requires Keyed(t) && Nondecreasing(es, start)
    ensures LazyRun(cfg, t, es).providers == FullRun(cfg, t, es).providers
    ensures Agree(LazyRun(cfg, t, es), FullRun(cfg, t, es), Clock(es, start))
  {
    if es != [] {
      var earlier := es[..|es| - 1];
      WindowRefinement(cfg, t, earlier, start);
      AgreeStep(cfg, LazyRun(cfg, t, earlier), FullRun(cfg, t, earlier), Clock(earlier, start), es[|es| - 1]);
    }
  }

  // ---------------------------------------------------------------- a tripped provider stays out

  ghost predicate CoolsUntil(t: Tracked, id: ProviderId, until: int) {
    id in t.providers && HasDeadline(t.providers[id]) && until <= t.providers[id].cooldownUntil.value
  }

  lemma {:induction false} CooldownPersists(cfg: CooldownConfig, t: Tracked, es: seq<Event>, id: ProviderId,
                                            tripped: nat)
    requires Keyed(t) && CoolsUntil(t, id, tripped + cfg.defaultMs)
    requires Nondecreasing(es, tripped)
    requires forall i :: 0 <= i < |es| ==> es[i].at < tripped + cfg.defaultMs
    ensures Keyed(LazyRun(cfg, t, es)) && CoolsUntil(LazyRun(cfg, t, es), id, tripped + cfg.defaultMs)
  {
    if es != [] {
      CooldownPersists(cfg, t, es[..|es| - 1], id, tripped);
    }
  }

  /** Once a failure trips the cooldown at time `tripped`, the provider is in cooldown at every
      time before `tripped + defaultMs`, whatever successes, failures and queries come between. */
  lemma {:induction false} CooldownExclusion(cfg: CooldownConfig, t: Tracked, id: ProviderId, tripped: nat,
                                             es: seq<Event>, now: int)
    requires Keyed(t) && id in t.providers
    requires var fails := |Recent(Entries(t.stores.failures, id), tripped)| + 1;
             Trips(cfg, fails, |Recent(Entries(t.stores.successes, id), tripped)|)
    requires Nondecreasing(es, tripped) && Clock(es, tripped) <= now < tripped + cfg.defaultMs
    ensures var after := LazyRun(cfg, LazyStep(cfg, t, Failure(id, tripped)), es);
            id in after.providers && InCooldown(after.providers[id], now)
  {
    CooldownPersists(cfg, LazyStep(cfg, t, Failure(id, tripped)), es, id, tripped);
  }

  // ---------------------------------------------------------------- what trips a provider

  /** The failures, or the successes, of a provider among the events that lie in the window that ends
      at `now`. */
  function CountRecent(es: seq<Event>, id: ProviderId, failed: bool, now: int): nat {
    if es == [] then 0 else
      var e := es[|es| - 1];
      CountRecent(es[..|es| - 1], id, failed, now) +
      if e.id == id && (if failed then e.Failure? else e.Success?) && now - e.at < 60_000 then 1 else 0
  }

  /** The whole history of a provider. */
  function Times(es: seq<Event>, id: ProviderId, failed: bool): seq<int> {
    if es == [] then [] else
      var e := es[|es| - 1];
      Times(es[..|es| - 1], id, failed) +
      if e.id == id && (if failed then e.Failure? else e.Success?) then [e.at] else []
  }

  lemma {:induction false} RecentTimes(es: seq<Event>, id: ProviderId, failed: bool, now: int)
    ensures |Recent(Times(es, id, failed), now)| == CountRecent(es, id, failed, now)
  {
    if es != [] {
      var e, front := es[|es| - 1], Times(es[..|es| - 1], id, failed);
      RecentTimes(es[..|es| - 1], id, failed, now);
      RecentAppend(front, e.at, now);
      assert front + [] == front;
    }
  }

  /** The providers without any recorded event. */
  predicate Unused(t: Tracked) {
    t.stores == Stores(map[], map[])
  }

  lemma {:induction false} FullHistory(cfg: CooldownConfig, t: Tracked, es: seq<Event>, id: ProviderId)
    requires Keyed(t) && Unused(t) && id in t.providers
    ensures var f := FullRun(cfg, t, es);
            && Keyed(f) && f.providers.Keys == t.providers.Keys
            && Entries(f.stores.failures, id) == Times(es, id, true)
            && Entries(f.stores.successes, id) == Times(es, id, false)
  {
    if es != [] {
      FullHistory(cfg, t, es[..|es| - 1], id);
      HistoryStep(cfg, FullRun(cfg, t, es[..|es| - 1]), es[|es| - 1], id);
    }
  }

  lemma HistoryStep(cfg: CooldownConfig, f: Tracked, e: Event, id: ProviderId)
    requires Keyed(f) && id in f.providers
    ensures var g := FullStep(cfg, f, e);
            && Keyed(g) && g.providers.Keys == f.providers.Keys
            && Entries(g.stores.failures, id) ==
               Entries(f.stores.failures, id) + (if e.Failure? && e.id == id then [e.at] else [])
            && Entries(g.stores.successes, id) ==
               Entries(f.stores.successes, id) + (if e.Success? && e.id == id then [e.at] else [])
  {
  }

  /** The counts the tracker looks at are those of the events in the window. */
  lemma WindowsAreCounts(cfg: CooldownConfig, t: Tracked, es: seq<Event>, start: int, id: ProviderId, now: int)
    requires Keyed(t) && Unused(t) && id in t.providers && Nondecreasing(es, start) && Clock(es, start) <= now
    ensures var l := LazyRun(cfg, t, es);
            && Keyed(l) && id in l.providers
            && |Recent(Entries(l.stores.failures, id), now)| == CountRecent(es, id, true, now)
            && |Recent(Entries(l.stores.successes, id), now)| == CountRecent(es, id, false, now)
  {
    WindowRefinement(cfg, t, es, start);
    FullHistory(cfg, t, es, id);
    RecentTimes(es, id, true, now);
    RecentTimes(es, id, false, now);
    var l, f := LazyRun(cfg, t, es), FullRun(cfg, t, es);
    assert SameWindows(Entries(l.stores.failures, id), Entries(f.stores.failures, id), Clock(es, start));
    assert SameWindows(Entries(l.stores.successes, id), Entries(f.stores.successes, id), Clock(es, start));
  }

  /** At least the minimum volume, and failures at least the threshold's share of it. */
  lemma TripsIff(cfg: CooldownConfig, fails: nat, wins: nat)
    requires 0 < fails
    ensures Trips(cfg, fails, wins) <==>
            cfg.minRequestVolume <= fails + wins &&
            cfg.failureThreshold * (fails + wins) as real <= fails as real
  {
    RateAtLeast(fails as real, (fails + wins) as real, cfg.failureThreshold);
  }

  lemma RateAtLeast(part: real, whole: real, share: real)
    requires 0.0 < whole
    ensures part / whole >= share <==> share * whole <= part
  {
    var rate := part / whole;
    assert rate * whole == part;
    if rate >= share {
      assert 0.0 <= (rate - share) * whole;
    } else {
      assert 0.0 < (share - rate) * whole;
    }
  }

  /** Enough requests, and a large enough share of them failures. */
  predicate TripShare(cfg: CooldownConfig, fails: nat, wins: nat) {
    cfg.minRequestVolume <= fails + wins && cfg.failureThreshold * (fails + wins) as real <= fails as real
  }

  /** The record after a failure, with the cooldown it starts. */
  function Noted(cfg: CooldownConfig, p: Provider, cools: bool, now: int): Provider {
    p.(failureCount := p.failureCount + 1, lastFailure := Some(now),
       cooldownUntil := if cools then Some(now + cfg.defaultMs) else p.cooldownUntil,
       healthy := if cools then false else p.healthy)
  }

  lemma FailureNoted(cfg: CooldownConfig, p: Provider, fails: nat, wins: nat, now: int)
    requires 0 < fails
    ensures AfterFailure(cfg, p, fails, wins, now) == Noted(cfg, p, TripShare(cfg, fails, wins), now)
  {
    TripsIff(cfg, fails, wins);
  }

  lemma FailureStep(cfg: CooldownConfig, l: Tracked, id: ProviderId, now: int, fails: nat, wins: nat)
    requires Keyed(l) && id in l.providers
    requires fails == |Recent(Entries(l.stores.failures, id), now)| + 1
    requires wins == |Recent(Entries(l.stores.successes, id), now)|
    ensures LazyStep(cfg, l, Failure(id, now)).providers ==
            l.providers[id := AfterFailure(cfg, l.providers[id], fails, wins, now)]
  {
    var windowed := Recent(Entries(l.stores.failures, id), now) + [now];
    assert |windowed| == fails;
  }

  /** A failure after any run of events, counted among those of the last minute together with the
      successes: it cools the provider down until exactly defaultMs from now if they are enough and
      its failures make up the threshold's share; otherwise the deadline stays. It is counted and
      dated either way, and nothing else changes. */
  lemma FailureMeaning(cfg: CooldownConfig, t: Tracked, es: seq<Event>, start: int, id: ProviderId, now: int)
    requires Keyed(t) && Unused(t) && id in t.providers && Nondecreasing(es, start) && Clock(es, start) <= now
    ensures id in LazyRun(cfg, t, es).providers
    ensures var before, after := LazyRun(cfg, t, es).providers, LazyRun(cfg, t, es + [Failure(id, now)]).providers;
            var fails, wins := CountRecent(es, id, true, now) + 1, CountRecent(es, id, false, now);
            after == before[id := Noted(cfg, before[id], TripShare(cfg, fails, wins), now)]
  {
    WindowsAreCounts(cfg, t, es, start, id, now);
    assert (es + [Failure(id, now)])[..|es|] == es;
    var l, fails, wins := LazyRun(cfg, t, es), CountRecent(es, id, true, now) + 1, CountRecent(es, id, false, now);
    FailureStep(cfg, l, id, now, fails, wins);
    FailureNoted(cfg, l.providers[id], fails, wins, now);
  }

  /** A success is counted, and ends a cooldown whose time has passed, as a query does. */
  lemma SuccessMeaning(cfg: CooldownConfig, t: Tracked, id: ProviderId, now: int)
    requires Keyed(t) && id in t.providers
    ensures var p := t.providers[id];
            var over := p.cooldownUntil.Some? && p.cooldownUntil.value != 0 && p.cooldownUntil.value <= now;
            var until, well := if over then None else p.cooldownUntil, if over then true else p.healthy;
            && LazyStep(cfg, t, Success(id, now)).providers ==
               t.providers[id := p.(successCount := p.successCount + 1, cooldownUntil := until, healthy := well)]
            && LazyStep(cfg, t, Query(id, now)).providers ==
               t.providers[id := p.(cooldownUntil := until, healthy := well)]
  {
  }
}
