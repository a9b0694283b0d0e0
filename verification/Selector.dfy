/** Provider selection (src/core/router/selector.ts): who may serve a request, in which order. */
module Selector {
  import opened Basics
  import opened Providers
  import opened Registry
  import opened Sorting
  import opened Cooldown
  import opened WeightedRoundRobin

  datatype Strategy = PriorityChain | RoundRobin | LeastConnections | LatencyOptimized | Weighted

  datatype SelectOptions = SelectOptions(
    strategy: Option<Strategy>,
    targetProviderId: Option<ProviderId>,
    profileId: Option<string>,
    readOnly: bool)

  /** What a selector remembers between calls. */
  datatype Routing = Routing(roundRobinIndex: nat, weightedState: Counters)

  /** May this provider serve the request now? */
  predicate Eligible(p: Provider, opts: SelectOptions, now: int) {
    && !InCooldown(p, now)
    && HasFreeSlot(p)
    && (opts.readOnly || EligibleProviderForProfile(p, opts.profileId))
  }

  // ---------------------------------------------------------------- comparators

  function ComparePriority(a: Provider, b: Provider): real {
    (a.config.priority - b.config.priority) as real
  }

  function CompareActive(a: Provider, b: Provider): real {
    (a.active - b.active) as real
  }

  /** Unmeasured providers, with latency zero, go last. */
  function CompareLatency(a: Provider, b: Provider): real {
    if a.avgLatencyMs == 0.0 && b.avgLatencyMs == 0.0 then 0.0
    else if a.avgLatencyMs == 0.0 then 1.0
    else if b.avgLatencyMs == 0.0 then -1.0
    else a.avgLatencyMs - b.avgLatencyMs
  }

  // ---------------------------------------------------------------- the candidate list

  /** getAllSortedByPriority. */
  function SortedByPriority(ps: seq<Provider>): seq<Provider> {
    StableSort(ps, ComparePriority)
  }

  function RefreshAll(ps: seq<Provider>, now: int): seq<Provider> {
    Image(p => Refresh(p, now), ps)
  }

  /** The eligible providers, refreshed, in the order given. */
  function Admitted(ps: seq<Provider>, opts: SelectOptions, now: int): seq<Provider> {
    if ps == [] then [] else
      var p := Refresh(ps[|ps| - 1], now);
      Admitted(ps[..|ps| - 1], opts, now) + if Eligible(p, opts, now) then [p] else []
  }

  /** One strategy applied to a non-empty list: the answer and the selector's new memory. */
  function Ordered(r: Routing, cs: seq<Provider>, strategy: Strategy): (seq<Provider>, Routing)
    requires cs != []
  {
    match strategy
    case PriorityChain => (cs, r)
    case RoundRobin =>
      var selected := cs[r.roundRobinIndex % |cs|];
      ([selected] + Without(cs, selected.id), r.(roundRobinIndex := r.roundRobinIndex + 1))
    case LeastConnections => (StableSort(cs, CompareActive), r)
    case LatencyOptimized => (StableSort(cs, CompareLatency), r)
    case Weighted =>
      var best := Lead(r.weightedState, cs);
      ([best] + Without(cs, best.id), r.(weightedState := Next(r.weightedState, cs)))
  }

  datatype Selection = Selection(candidates: seq<Provider>, providers: seq<Provider>, routing: Routing)

  /** `getCandidates` over the enabled providers `ps`: the answer, the providers with passed
      cooldowns cleared, and the selector's new memory. */
  function Select(ps: seq<Provider>, r: Routing, default: Strategy, opts: SelectOptions, now: int): Selection {
    if opts.targetProviderId.Some? then
      var pinned := Lookup(ps, opts.targetProviderId.value);
      if pinned.None? then Selection([], ps, r) else
        var p := Refresh(pinned.value, now);
        Selection(if Eligible(p, opts, now) then [p] else [], Put(ps, p), r)
    else
      var available := Admitted(SortedByPriority(ps), opts, now);
      if available == [] then Selection([], RefreshAll(ps, now), r) else
        var (order, routing) := Ordered(r, available, opts.strategy.GetOr(default));
        Selection(order, RefreshAll(ps, now), routing)
  }

  // ---------------------------------------------------------------- the selector object

  class ProviderSelector {
    const registry: ProviderRegistry
    var defaultStrategy: Strategy
    var roundRobinIndex: nat
    var weightedState: Counters

    constructor (registry: ProviderRegistry, defaultStrategy: Strategy)
      ensures this.registry == registry && this.defaultStrategy == defaultStrategy
      ensures Memory() == Routing(0, map[])
    {
      this.registry, this.defaultStrategy := registry, defaultStrategy;
      roundRobinIndex, weightedState := 0, map[];
    }

    function Memory(): Routing
      reads this
    {
      Routing(roundRobinIndex, weightedState)
    }

    method GetCandidates(opts: SelectOptions, now: int) returns (candidates: seq<Provider>)
      requires registry.Valid()
      modifies this, registry`providers
      ensures registry.Valid() && defaultStrategy == old(defaultStrategy)
      ensures Selection(candidates, registry.providers, Memory()) ==
              Select(old(registry.providers), old(Memory()), defaultStrategy, opts, now)
    {
      if opts.targetProviderId.Some? {
        candidates := Pinned(opts, now);
        return;
      }
      var available := Filter(opts, now);
      if available == [] {
        return [];
      }
      candidates := ApplyStrategy(available, opts.strategy.GetOr(defaultStrategy));
    }

    /** The three checks every candidate passes, in order. Asking also clears a passed cooldown. */
    static method Check(p: Provider, opts: SelectOptions, now: int) returns (admitted: bool, updated: Provider)
      ensures updated == Refresh(p, now) && admitted == Eligible(updated, opts, now)
    {
      var cooling;
      cooling, updated := CooldownTracker.IsInCooldown(p, now);
      if cooling || !HasFreeSlot(updated) {
        return false, updated;
      }
      if !opts.readOnly && !EligibleProviderForProfile(updated, opts.profileId) {
        return false, updated;
      }
      return true, updated;
    }

    /** The pinned branch: one specific provider or nothing. */
    method Pinned(opts: SelectOptions, now: int) returns (candidates: seq<Provider>)
      requires registry.Valid() && opts.targetProviderId.Some?
      modifies registry`providers
      ensures registry.Valid()
      ensures Selection(candidates, registry.providers, Memory()) ==
              Select(old(registry.providers), old(Memory()), defaultStrategy, opts, now)
    {
      var pinned := registry.Get(opts.targetProviderId.value);
      if pinned.None? {
        return [];
      }
      var admitted, updated := Check(pinned.value, opts, now);
      PutDistinct(registry.providers, updated);
      registry.providers := Put(registry.providers, updated);
      return if admitted then [updated] else [];
    }

    /** Checks one provider and stores it as the check left it. */
    method Visit(p: Provider, opts: SelectOptions, now: int) returns (admitted: bool, updated: Provider)
      modifies registry`providers
      ensures registry.providers == Put(old(registry.providers), Refresh(p, now))
      ensures updated == Refresh(p, now) && admitted == Eligible(updated, opts, now)
    {
      admitted, updated := Check(p, opts, now);
      registry.providers := Put(registry.providers, updated);
    }

    /** The unpinned filter, in priority order. */
    method Filter(opts: SelectOptions, now: int) returns (available: seq<Provider>)
      requires registry.Valid()
      modifies registry`providers
      ensures registry.Valid()
      ensures available == Admitted(SortedByPriority(old(registry.providers)), opts, now)
      ensures registry.providers == RefreshAll(old(registry.providers), now)
    {
      ghost var before := registry.providers;
      var all := SortedByPriority(registry.providers);
      SortKeepsElements(before, ComparePriority);
      SameMembers(before, all);
      available := [];
      for i := 0 to |all|
        invariant registry.Valid() && registry.disabled == old(registry.disabled)
        invariant PartlyRefreshed(before, registry.providers, all[..i], now)
        invariant available == Admitted(all[..i], opts, now)
      {
        RefreshOne(before, registry.View(), all, i, now);
        AdmittedAppend(all, i, opts, now);
        var admitted, updated := Visit(all[i], opts, now);
        if admitted {
          available := available + [updated];
        }
      }
      AllRefreshed(before, registry.providers, all, now);
    }

    method ApplyStrategy(cs: seq<Provider>, strategy: Strategy) returns (order: seq<Provider>)
      requires cs != []
      modifies this
      ensures (order, Memory()) == Ordered(old(Memory()), cs, strategy)
      ensures defaultStrategy == old(defaultStrategy)
    {
      match strategy
      case PriorityChain =>
        order := cs;
      case RoundRobin =>
        var index := roundRobinIndex % |cs|;
        roundRobinIndex := roundRobinIndex + 1;
        order := [cs[index]] + Without(cs, cs[index].id);
      case LeastConnections =>
        order := StableSort(cs, CompareActive);
      case LatencyOptimized =>
        order := StableSort(cs, CompareLatency);
      case Weighted =>
        order := SmoothWeightedRoundRobin(cs);
    }

    method SmoothWeightedRoundRobin(cs: seq<Provider>) returns (order: seq<Provider>)
      requires cs != []
      modifies this`weightedState
      ensures weightedState == Next(old(weightedState), cs)
      ensures order == [Lead(old(weightedState), cs)] + Without(cs, Lead(old(weightedState), cs).id)
    {
      var totalWeight := AddWeights(cs);
      var best := PickHighest(cs);
      weightedState := weightedState[cs[best].id := Get(weightedState, cs[best].id) - totalWeight];
      order := [cs[best]] + Without(cs, cs[best].id);
    }

    method AddWeights(cs: seq<Provider>) returns (totalWeight: int)
      modifies this`weightedState
      ensures weightedState == Bump(old(weightedState), cs) && totalWeight == TotalWeight(cs)
    {
      ghost var before := weightedState;
      totalWeight := 0;
      for i := 0 to |cs|
        invariant totalWeight == TotalWeight(cs[..i])
        invariant weightedState == Bump(before, cs[..i])
      {
        assert cs[..i + 1][..i] == cs[..i];
        totalWeight := totalWeight + Weight(cs[i]);
        weightedState := weightedState[cs[i].id := Get(weightedState, cs[i].id) + Weight(cs[i])];
      }
      assert cs[..|cs|] == cs;
    }

    method PickHighest(cs: seq<Provider>) returns (best: nat)
      requires cs != []
      ensures best == Leader(weightedState, cs)
    {
      best := 0;
      var bestWeight := Get(weightedState, cs[0].id);
      for i := 1 to |cs|
        invariant best < i && bestWeight == Get(weightedState, cs[best].id)
        invariant best == Leader(weightedState, cs[..i])
      {
        var w := Get(weightedState, cs[i].id);
        if w > bestWeight {
          best, bestWeight := i, w;
        }
      }
      assert cs[..|cs|] == cs;
    }
  }

  lemma AdmittedAppend(all: seq<Provider>, i: nat, opts: SelectOptions, now: int)
    requires i < |all|
    ensures var p := Refresh(all[i], now);
            Admitted(all[..i + 1], opts, now) ==
            Admitted(all[..i], opts, now) + if Eligible(p, opts, now) then [p] else []
  {
    assert all[..i + 1][..i] == all[..i];
  }

  lemma AllRefreshed(before: seq<Provider>, current: seq<Provider>, all: seq<Provider>, now: int)
    requires PartlyRefreshed(before, current, all[..|all|], now)
    requires forall p :: p in before ==> p in all
    ensures current == RefreshAll(before, now)
    ensures all[..|all|] == all
  {
  }

  /** The records of `done` have been refreshed, the others not yet. */
  ghost predicate PartlyRefreshed(before: seq<Provider>, current: seq<Provider>, done: seq<Provider>, now: int) {
    && |current| == |before|
    && forall k :: 0 <= k < |before| ==>
      current[k] == if before[k] in done then Refresh(before[k], now) else before[k]
  }

  lemma SameMembers(a: seq<Provider>, b: seq<Provider>)
    requires multiset(a) == multiset(b)
    ensures forall p :: p in a <==> p in b
  {
    forall p ensures p in a <==> p in b {
      assert p in a <==> p in multiset(a);
      assert p in b <==> p in multiset(b);
    }
  }

  lemma RefreshOne(before: seq<Provider>, r: RegistryView, all: seq<Provider>, i: nat, now: int)
    requires i < |all| && all[i] in before
    requires DistinctIds(before) && WellKeyed(r)
    requires PartlyRefreshed(before, r.enabled, all[..i], now)
    ensures WellKeyed(r.(enabled := Put(r.enabled, Refresh(all[i], now))))
    ensures PartlyRefreshed(before, Put(r.enabled, Refresh(all[i], now)), all[..i + 1], now)
  {
    var k :| 0 <= k < |before| && before[k] == all[i];
    assert all[..i + 1] == all[..i] + [before[k]];
    StoredAt(before, r, all[..i], k, now);
  }

  /** Storing a refreshed record puts it in the place of the old one. */
  lemma StoredAt(before: seq<Provider>, r: RegistryView, done: seq<Provider>, k: nat, now: int)
    requires k < |before| && DistinctIds(before) && WellKeyed(r) && PartlyRefreshed(before, r.enabled, done, now)
    ensures var q := r.(enabled := Put(r.enabled, Refresh(before[k], now)));
            WellKeyed(q) && PartlyRefreshed(before, q.enabled, done + [before[k]], now)
  {
    var p := Refresh(before[k], now);
    assert r.enabled[k].id == p.id;
    assert Put(r.enabled, p) == r.enabled[k := p] by { PutAt(r.enabled, k, p); }
    PutKeyed(r, k, p);
    RefreshedAt(before, r.enabled, done, k, now);
  }

  lemma RefreshedAt(before: seq<Provider>, current: seq<Provider>, done: seq<Provider>, k: nat, now: int)
    requires k < |before| && DistinctIds(before) && PartlyRefreshed(before, current, done, now)
    ensures PartlyRefreshed(before, current[k := Refresh(before[k], now)], done + [before[k]], now)
  {
    forall j | 0 <= j < |before| && j != k ensures before[j] in done + [before[k]] <==> before[j] in done {
      assert before[j].id != before[k].id;
    }
  }

  lemma PutKeyed(r: RegistryView, k: nat, p: Provider)
    requires WellKeyed(r) && k < |r.enabled| && r.enabled[k].id == p.id
    ensures WellKeyed(r.(enabled := Put(r.enabled, p)))
  {
    PutDistinct(r.enabled, p);
    assert r.enabled[k] in r.enabled;
  }

  // ---------------------------------------------------------------- what the answer contains

  lemma {:induction false} AdmittedExactly(ps: seq<Provider>, opts: SelectOptions, now: int)
    requires DistinctIds(ps)
    ensures DistinctIds(Admitted(ps, opts, now))
    ensures forall p :: p in Admitted(ps, opts, now) <==>
                        exists q :: q in ps && p == Refresh(q, now) && Eligible(q, opts, now)
  {
    if ps != [] {
      var front, last := ps[..|ps| - 1], ps[|ps| - 1];
      AdmittedExactly(front, opts, now);
      var a := Admitted(front, opts, now);
      forall k | 0 <= k < |a| ensures a[k].id != last.id {
        assert a[k] in a;
        var q :| q in front && a[k] == Refresh(q, now) && Eligible(q, opts, now);
      }
      forall p ensures p in Admitted(ps, opts, now) <==>
                       exists q :: q in ps && p == Refresh(q, now) && Eligible(q, opts, now) {
        if q :| q in ps && p == Refresh(q, now) && Eligible(q, opts, now) {
          assert q == last || q in front;
        }
      }
    }
  }

  lemma {:induction false} WithoutAbsent(cs: seq<Provider>, id: ProviderId)
    requires forall i :: 0 <= i < |cs| ==> cs[i].id != id
    ensures Without(cs, id) == cs
  {
    if cs != [] {
      WithoutAbsent(cs[..|cs| - 1], id);
    }
  }

  /** With distinct identifiers, dropping one identifier drops one provider and keeps the order. */
  lemma {:induction false} WithoutOne(cs: seq<Provider>, i: nat)
    requires DistinctIds(cs) && i < |cs|
    ensures Without(cs, cs[i].id) == cs[..i] + cs[i + 1..]
  {
    var n := |cs| - 1;
    var front := cs[..n];
    if i == n {
      WithoutAbsent(front, cs[i].id);
    } else {
      WithoutOne(front, i);
      assert front[..i] == cs[..i] && front[i + 1..] + [cs[n]] == cs[i + 1..];
    }
  }

  lemma LeadFirstIsPermutation(cs: seq<Provider>, i: nat)
    requires DistinctIds(cs) && i < |cs|
    ensures multiset([cs[i]] + Without(cs, cs[i].id)) == multiset(cs)
  {
    assert Without(cs, cs[i].id) == cs[..i] + cs[i + 1..] by { WithoutOne(cs, i); }
    MoveToFront(cs, i);
  }

  lemma MoveToFront<T>(s: seq<T>, i: nat)
    requires i < |s|
    ensures multiset([s[i]] + (s[..i] + s[i + 1..])) == multiset(s)
  {
    var a, b := s[..i], s[i + 1..];
    assert s == a + [s[i]] + b;
    assert multiset([s[i]] + (a + b)) == multiset([s[i]]) + multiset(a) + multiset(b);
  }

  /** Every strategy answers with a permutation of the list it was given. */
  lemma OrderedIsPermutation(r: Routing, cs: seq<Provider>, strategy: Strategy)
    requires cs != [] && DistinctIds(cs)
    ensures multiset(Ordered(r, cs, strategy).0) == multiset(cs)
  {
    match strategy
    case PriorityChain =>
    case RoundRobin => LeadFirstIsPermutation(cs, r.roundRobinIndex % |cs|);
    case LeastConnections => SortKeepsElements(cs, CompareActive);
    case LatencyOptimized => SortKeepsElements(cs, CompareLatency);
    case Weighted => LeadFirstIsPermutation(cs, Leader(Bump(r.weightedState, cs), cs));
  }

  lemma CountsOnce(a: seq<Provider>, p: Provider)
    requires DistinctIds(a) && p in a
    ensures multiset(a)[p] == 1
    ensures forall q :: q in a && q.id == p.id ==> q == p
  {
    var k :| 0 <= k < |a| && a[k] == p;
    assert a == a[..k] + [p] + a[k + 1..];
    assert p !in a[..k] && p !in a[k + 1..];
  }

  lemma CountsTwice<T>(b: seq<T>, i: nat, j: nat)
    requires i < j < |b| && b[i] == b[j]
    ensures multiset(b)[b[i]] >= 2
  {
    var front, back := b[..j], b[j..];
    assert b == front + back && front[i] in front && back[0] in back;
    assert multiset(front)[b[i]] >= 1 && multiset(back)[b[i]] >= 1;
  }

  lemma DistinctByCount(a: seq<Provider>, b: seq<Provider>)
    requires multiset(a) == multiset(b) && DistinctIds(a)
    ensures DistinctIds(b)
  {
    SameMembers(a, b);
    forall i, j | 0 <= i < j < |b| ensures b[i].id != b[j].id {
      assert b[i] in b && b[j] in b;
      CountsOnce(a, b[i]);
      if b[i] == b[j] {
        CountsTwice(b, i, j);
      }
    }
  }

  /** For every strategy, the unpinned answer lists exactly the eligible providers, each once. */
  lemma CandidatesAreTheEligible(ps: seq<Provider>, r: Routing, default: Strategy, opts: SelectOptions, now: int)
    requires DistinctIds(ps) && opts.targetProviderId.None?
    ensures DistinctIds(Select(ps, r, default, opts, now).candidates)
    ensures forall p :: p in Select(ps, r, default, opts, now).candidates <==>
                        exists q :: q in ps && p == Refresh(q, now) && Eligible(q, opts, now)
  {
    var all := SortedByPriority(ps);
    SortKeepsElements(ps, ComparePriority);
    SameMembers(ps, all);
    DistinctByCount(ps, all);
    AdmittedExactly(all, opts, now);
    var available := Admitted(all, opts, now);
    if available != [] {
      var strategy := opts.strategy.GetOr(default);
      OrderedIsPermutation(r, available, strategy);
      SameMembers(available, Ordered(r, available, strategy).0);
      DistinctByCount(available, Ordered(r, available, strategy).0);
    }
  }

  /** A pinned request is answered with that provider, when it is enabled and eligible, or with nothing. */
  lemma PinnedCandidates(ps: seq<Provider>, r: Routing, default: Strategy, opts: SelectOptions, now: int)
    requires DistinctIds(ps) && opts.targetProviderId.Some?
    ensures forall p :: p in Select(ps, r, default, opts, now).candidates <==>
                        exists q :: q in ps && q.id == opts.targetProviderId.value &&
                                    p == Refresh(q, now) && Eligible(q, opts, now)
  {
  }

  /** Can any enabled provider answer the request? */
  ghost predicate Satisfiable(ps: seq<Provider>, opts: SelectOptions, now: int) {
    exists q :: q in ps && Eligible(q, opts, now) &&
      (opts.targetProviderId.Some? ==> q.id == opts.targetProviderId.value)
  }

  /** The answer is non-empty exactly when some provider meets the request's constraint. */
  lemma NonemptyIffSatisfiable(ps: seq<Provider>, r: Routing, default: Strategy, opts: SelectOptions, now: int)
    requires DistinctIds(ps)
    ensures Select(ps, r, default, opts, now).candidates != [] <==> Satisfiable(ps, opts, now)
  {
    var cs := Select(ps, r, default, opts, now).candidates;
    if opts.targetProviderId.Some? {
      PinnedCandidates(ps, r, default, opts, now);
    } else {
      CandidatesAreTheEligible(ps, r, default, opts, now);
    }
    if cs != [] {
      assert cs[0] in cs;
    }
    if q :| q in ps && Eligible(q, opts, now) && (opts.targetProviderId.Some? ==> q.id == opts.targetProviderId.value) {
      assert Refresh(q, now) in cs;
    }
  }

  /** A provider in cooldown is in no answer, pinned or not. */
  lemma CoolingIsNoCandidate(ps: seq<Provider>, r: Routing, default: Strategy, opts: SelectOptions, now: int,
                             p: Provider)
    requires DistinctIds(ps) && p in ps && InCooldown(p, now)
    ensures forall c :: c in Select(ps, r, default, opts, now).candidates ==> c.id != p.id
  {
    forall c | c in Select(ps, r, default, opts, now).candidates ensures c.id != p.id {
      var q := CandidateSource(ps, r, default, opts, now, c);
      if q.id == p.id {
        SameProvider(ps, p, q);
      }
    }
  }

  /** Every candidate is some registered provider that is eligible. */
  lemma CandidateSource(ps: seq<Provider>, r: Routing, default: Strategy, opts: SelectOptions, now: int, c: Provider)
    returns (q: Provider)
    requires DistinctIds(ps) && c in Select(ps, r, default, opts, now).candidates
    ensures q in ps && c == Refresh(q, now) && Eligible(q, opts, now)
  {
    if opts.targetProviderId.Some? {
      PinnedCandidates(ps, r, default, opts, now);
    } else {
      CandidatesAreTheEligible(ps, r, default, opts, now);
    }
    q :| q in ps && c == Refresh(q, now) && Eligible(q, opts, now);
  }

  lemma SameProvider(ps: seq<Provider>, p: Provider, q: Provider)
    requires DistinctIds(ps) && p in ps && q in ps && p.id == q.id
    ensures p == q
  {
    var i :| 0 <= i < |ps| && ps[i] == p;
    var j :| 0 <= j < |ps| && ps[j] == q;
  }

  // ---------------------------------------------------------------- orders

  lemma ComparatorsArePreorders()
    ensures TotalPreorder(ComparePriority)
    ensures TotalPreorder(CompareActive)
    ensures TotalPreorder(CompareLatency)
  {
  }

  /** Registered earlier. */
  ghost predicate StandsBefore(ps: seq<Provider>, a: ProviderId, b: ProviderId) {
    exists x, y :: 0 <= x < y < |ps| && ps[x].id == a && ps[y].id == b
  }

  /** The lower priority number first; equal ones as they were registered. */
  ghost predicate Precedes(ps: seq<Provider>, a: Provider, b: Provider) {
    || a.config.priority < b.config.priority
    || (a.config.priority == b.config.priority && StandsBefore(ps, a.id, b.id))
  }

  ghost function Registration(ps: seq<Provider>): Order<Provider> {
    (a: Provider, b: Provider) => StandsBefore(ps, a.id, b.id)
  }

  ghost function Preceding(ps: seq<Provider>): Order<Provider> {
    (a: Provider, b: Provider) => Precedes(ps, a, b)
  }

  /** The registry's priority order: the same providers, by ascending priority number, ties in
      registration order. */
  lemma PriorityOrder(ps: seq<Provider>)
    ensures multiset(SortedByPriority(ps)) == multiset(ps)
    ensures var all := SortedByPriority(ps); forall i, j :: 0 <= i < j < |all| ==> Precedes(ps, all[i], all[j])
  {
    var all := SortedByPriority(ps);
    SortKeepsElements(ps, ComparePriority);
    ComparatorsArePreorders();
    SortListed(ps, ComparePriority, Registration(ps));
    forall i, j | 0 <= i < j < |all| ensures Precedes(ps, all[i], all[j]) {
      assert Then(ComparePriority, Registration(ps))(all[i], all[j]);
    }
  }

  lemma {:induction false} AdmittedListed(all: seq<Provider>, opts: SelectOptions, now: int, order: Order<Provider>)
    requires Listed(all, order)
    requires forall a, b :: order(a, b) ==> order(Refresh(a, now), Refresh(b, now))
    ensures forall p :: p in Admitted(all, opts, now) ==> exists q :: q in all && p == Refresh(q, now)
    ensures Listed(Admitted(all, opts, now), order)
  {
    if all != [] {
      var front, last := all[..|all| - 1], all[|all| - 1];
      AdmittedListed(front, opts, now, order);
      forall p | p in Admitted(front, opts, now) ensures order(p, Refresh(last, now)) {
        var q :| q in front && p == Refresh(q, now);
        var i :| 0 <= i < |front| && front[i] == q;
        assert order(all[i], last);
      }
      ListedAppend(Admitted(front, opts, now), Refresh(last, now), order);
    }
  }

  /** What is admitted is still in priority order. */
  lemma AvailableOrder(ps: seq<Provider>, opts: SelectOptions, now: int)
    ensures Listed(Admitted(SortedByPriority(ps), opts, now), Preceding(ps))
  {
    PriorityOrder(ps);
    forall a, b | Precedes(ps, a, b) ensures Precedes(ps, Refresh(a, now), Refresh(b, now)) {
      assert Refresh(a, now).id == a.id && Refresh(a, now).config == a.config;
      assert Refresh(b, now).id == b.id && Refresh(b, now).config == b.config;
    }
    AdmittedListed(SortedByPriority(ps), opts, now, Preceding(ps));
  }

  /** The priority chain: by ascending priority number, then in registration order. */
  lemma PriorityChainOrder(ps: seq<Provider>, r: Routing, default: Strategy, opts: SelectOptions, now: int)
    requires opts.targetProviderId.None? && opts.strategy.GetOr(default) == PriorityChain
    ensures var answer := Select(ps, r, default, opts, now).candidates;
            forall i, j :: 0 <= i < j < |answer| ==> Precedes(ps, answer[i], answer[j])
  {
    AvailableOrder(ps, opts, now);
    var answer := Select(ps, r, default, opts, now).candidates;
    forall i, j | 0 <= i < j < |answer| ensures Precedes(ps, answer[i], answer[j]) {
      assert Preceding(ps)(answer[i], answer[j]);
    }
  }

  lemma ActiveInOrder(a: Provider, b: Provider)
    ensures CompareActive(a, b) < 0.0 <==> a.active < b.active
    ensures CompareActive(a, b) == 0.0 <==> a.active == b.active
  {
    assert CompareActive(a, b) == (a.active - b.active) as real;
  }

  /** Least-connections: fewest active sessions first, then by priority, then in registration order. */
  lemma LeastConnectionsOrder(ps: seq<Provider>, r: Routing, default: Strategy, opts: SelectOptions, now: int)
    requires opts.targetProviderId.None? && opts.strategy.GetOr(default) == LeastConnections
    ensures var answer := Select(ps, r, default, opts, now).candidates;
            forall i, j :: 0 <= i < j < |answer| ==>
              || answer[i].active < answer[j].active
              || (answer[i].active == answer[j].active && Precedes(ps, answer[i], answer[j]))
  {
    var available := Admitted(SortedByPriority(ps), opts, now);
    var answer := Select(ps, r, default, opts, now).candidates;
    assert Listed(answer, Then(CompareActive, Preceding(ps))) by {
      AvailableOrder(ps, opts, now);
      ComparatorsArePreorders();
      SortListed(available, CompareActive, Preceding(ps));
    }
    forall i, j | 0 <= i < j < |answer|
      ensures answer[i].active < answer[j].active ||
              (answer[i].active == answer[j].active && Precedes(ps, answer[i], answer[j]))
    {
      assert Then(CompareActive, Preceding(ps))(answer[i], answer[j]);
      ActiveInOrder(answer[i], answer[j]);
    }
  }

  /** Measured and faster, or measured where the other is not. */
  predicate Faster(a: Provider, b: Provider) {
    a.avgLatencyMs != 0.0 && (b.avgLatencyMs == 0.0 || a.avgLatencyMs < b.avgLatencyMs)
  }

  lemma LatencyInOrder(a: Provider, b: Provider)
    ensures CompareLatency(a, b) < 0.0 <==> Faster(a, b)
    ensures CompareLatency(a, b) == 0.0 <==> a.avgLatencyMs == b.avgLatencyMs
  {
  }

  /** Latency: measured providers fastest first, then the unmeasured; where that ties by priority,
      then in registration order. */
  lemma LatencyOrder(ps: seq<Provider>, r: Routing, default: Strategy, opts: SelectOptions, now: int)
    requires opts.targetProviderId.None? && opts.strategy.GetOr(default) == LatencyOptimized
    ensures var answer := Select(ps, r, default, opts, now).candidates;
            forall i, j :: 0 <= i < j < |answer| ==>
              || Faster(answer[i], answer[j])
              || (answer[i].avgLatencyMs == answer[j].avgLatencyMs && Precedes(ps, answer[i], answer[j]))
  {
    var available := Admitted(SortedByPriority(ps), opts, now);
    var answer := Select(ps, r, default, opts, now).candidates;
    assert Listed(answer, Then(CompareLatency, Preceding(ps))) by {
      AvailableOrder(ps, opts, now);
      ComparatorsArePreorders();
      SortListed(available, CompareLatency, Preceding(ps));
    }
    forall i, j | 0 <= i < j < |answer|
      ensures Faster(answer[i], answer[j]) ||
              (answer[i].avgLatencyMs == answer[j].avgLatencyMs && Precedes(ps, answer[i], answer[j]))
    {
      assert Then(CompareLatency, Preceding(ps))(answer[i], answer[j]);
      LatencyInOrder(answer[i], answer[j]);
    }
  }

  lemma {:induction false} WithoutListed(cs: seq<Provider>, id: ProviderId, order: Order<Provider>)
    requires Listed(cs, order)
    ensures Listed(Without(cs, id), order)
    ensures forall p :: p in Without(cs, id) <==> p in cs && p.id != id
  {
    if cs != [] {
      var front, last := cs[..|cs| - 1], cs[|cs| - 1];
      WithoutListed(front, id, order);
      assert cs == front + [last];
      forall a | a in Without(front, id) ensures order(a, last) {
        var i :| 0 <= i < |front| && front[i] == a;
        assert order(cs[i], cs[|cs| - 1]);
      }
      ListedAppend(Without(front, id), last, order);
    }
  }

  /** Round-robin and weighted answers put one provider first and keep the others in priority order. */
  lemma FallbacksInPriorityOrder(ps: seq<Provider>, r: Routing, default: Strategy, opts: SelectOptions, now: int)
    requires opts.targetProviderId.None?
    requires opts.strategy.GetOr(default) == RoundRobin || opts.strategy.GetOr(default) == Weighted
    ensures var answer := Select(ps, r, default, opts, now).candidates;
            forall i, j :: 1 <= i < j < |answer| ==> Precedes(ps, answer[i], answer[j])
  {
    var available := Admitted(SortedByPriority(ps), opts, now);
    var answer := Select(ps, r, default, opts, now).candidates;
    AvailableOrder(ps, opts, now);
    if answer != [] {
      WithoutListed(available, answer[0].id, Preceding(ps));
      assert answer[1..] == Without(available, answer[0].id);
      forall i, j | 1 <= i < j < |answer| ensures Precedes(ps, answer[i], answer[j]) {
        assert Preceding(ps)(answer[1..][i - 1], answer[1..][j - 1]);
      }
    }
  }

  /** On its own fields: no deadline ahead; no ceiling, of its own or else an advertised one, that it
      has reached; and, unless the request is read-only, any profile at all, no profile of its own, or
      the requested one. */
  predicate Able(p: Provider, opts: SelectOptions, now: int) {
    && (p.cooldownUntil.Some? && p.cooldownUntil.value != 0 ==> p.cooldownUntil.value <= now)
    && (p.config.maxConcurrent.Some? && p.config.maxConcurrent.value != 0 ==> p.active < p.config.maxConcurrent.value)
    && (p.config.maxConcurrent.None? && p.discoveredMaxConcurrent.Some? && p.discoveredMaxConcurrent.value != 0 ==>
          p.active < p.discoveredMaxConcurrent.value)
    && (opts.readOnly || p.browserserve || p.config.profile.None? || p.config.profile == opts.profileId)
  }

  lemma EligibleIsAble(p: Provider, opts: SelectOptions, now: int)
    ensures Eligible(p, opts, now) <==> Able(p, opts, now)
  {
  }

  /** A provider is among the candidates exactly if it is able, and the pinned one if one is. */
  lemma CandidateMeaning(ps: seq<Provider>, r: Routing, default: Strategy, opts: SelectOptions, now: int, p: Provider)
    requires DistinctIds(ps) && p in ps
    ensures (exists c :: c in Select(ps, r, default, opts, now).candidates && c.id == p.id) <==>
            Able(p, opts, now) && (opts.targetProviderId.Some? ==> p.id == opts.targetProviderId.value)
  {
    EligibleIsAble(p, opts, now);
    if opts.targetProviderId.Some? {
      PinnedCandidates(ps, r, default, opts, now);
    } else {
      CandidatesAreTheEligible(ps, r, default, opts, now);
    }
    CandidateIff(ps, Select(ps, r, default, opts, now).candidates, opts, now, p);
  }

  lemma CandidateIff(ps: seq<Provider>, cs: seq<Provider>, opts: SelectOptions, now: int, p: Provider)
    requires DistinctIds(ps) && p in ps
    requires forall c :: c in cs <==> exists q :: q in ps && c == Refresh(q, now) && Eligible(q, opts, now) &&
                                       (opts.targetProviderId.Some? ==> q.id == opts.targetProviderId.value)
    ensures (exists c :: c in cs && c.id == p.id) <==>
            Eligible(p, opts, now) && (opts.targetProviderId.Some? ==> p.id == opts.targetProviderId.value)
  {
    if Eligible(p, opts, now) && (opts.targetProviderId.Some? ==> p.id == opts.targetProviderId.value) {
      assert Refresh(p, now) in cs && Refresh(p, now).id == p.id;
    }
    if c :| c in cs && c.id == p.id {
      var q :| q in ps && c == Refresh(q, now) && Eligible(q, opts, now) &&
               (opts.targetProviderId.Some? ==> q.id == opts.targetProviderId.value);
      SameProvider(ps, p, q);
    }
  }

  /** A candidate is the registered record, but for a deadline that has passed. */
  lemma CandidateRecord(ps: seq<Provider>, r: Routing, default: Strategy, opts: SelectOptions, now: int, c: Provider)
    requires DistinctIds(ps) && c in Select(ps, r, default, opts, now).candidates
    ensures exists q :: q in ps && (c == q || (c == q.(cooldownUntil := None, healthy := true) &&
                                               q.cooldownUntil.Some? && q.cooldownUntil.value <= now))
  {
    var q := CandidateSource(ps, r, default, opts, now, c);
  }

  // ---------------------------------------------------------------- round-robin

  /** The selector's memory after `t` round-robin calls on the same list. */
  function Turns(r: Routing, cs: seq<Provider>, t: nat): Routing
    requires cs != []
  {
    if t == 0 then r else Ordered(Turns(r, cs, t - 1), cs, RoundRobin).1
  }

  /** How often a provider led those answers. */
  function TurnsLed(r: Routing, cs: seq<Provider>, t: nat, id: ProviderId): nat
    requires cs != []
  {
    if t == 0 then 0 else
      TurnsLed(r, cs, t - 1, id) + if Ordered(Turns(r, cs, t - 1), cs, RoundRobin).0[0].id == id then 1 else 0
  }

  lemma Rotation(start: nat, k: nat, n: nat, j: nat)
    requires k < n && j < n
    ensures (start + k) % n == j <==> k == (j - start % n + n) % n
  {
    var a := start % n;
    assert start + k == n * (start / n) + (a + k);
    WholeTurns(start / n, a + k, n);
    WholeTurns(1, j - a, n);
    if a + k < n {
      SmallRemainder(a + k, n);
    } else {
      WholeTurns(1, a + k - n, n);
      SmallRemainder(a + k - n, n);
    }
    if j < a {
      SmallRemainder(j - a + n, n);
    } else {
      SmallRemainder(j - a, n);
    }
  }

  lemma SmallRemainder(x: nat, n: nat)
    requires x < n
    ensures x % n == x
  {
  }

  lemma WholeTurns(q: int, x: int, n: nat)
    requires 0 < n
    ensures (n * q + x) % n == x % n
  {
    var whole, part := x / n, x % n;
    assert n * q + x == n * (q + whole) + part;
    RemainderUnique(n, q + whole, part);
  }

  lemma RemainderUnique(n: nat, q: int, r: nat)
    requires r < n
    ensures (n * q + r) % n == r
  {
    var x := n * q + r;
    var d := x / n - q;
    assert x == n * (x / n) + x % n;
    assert n * (x / n) - n * q == n * d;
    NegativeMultiple(n, d);
    NegativeMultiple(n, -d);
    assert n * -d == -(n * d);
  }

  lemma {:induction false} TurnsProgress(r: Routing, cs: seq<Provider>, t: nat, j: nat)
    requires DistinctIds(cs) && j < |cs| && t <= |cs|
    ensures Turns(r, cs, t).roundRobinIndex == r.roundRobinIndex + t
    ensures TurnsLed(r, cs, t, cs[j].id) ==
            if (j - r.roundRobinIndex % |cs| + |cs|) % |cs| < t then 1 else 0
  {
    if t != 0 {
      TurnsProgress(r, cs, t - 1, j);
      Rotation(r.roundRobinIndex, t - 1, |cs|, j);
    }
  }

  /** Wherever the index stands, n consecutive round-robin calls on a stable list of n providers
      are led by each of them exactly once. */
  lemma RoundRobinLeadsEachOnce(r: Routing, cs: seq<Provider>, j: nat)
    requires DistinctIds(cs) && j < |cs|
    ensures TurnsLed(r, cs, |cs|, cs[j].id) == 1
  {
    TurnsProgress(r, cs, |cs|, j);
  }

  // ---------------------------------------------------------------- cooldown over whole runs

  /** Once a failure trips the cooldown of `id` at time `tripped`, no answer before
      `tripped + defaultMs` names it: whatever failures, successes and queries came between, whatever
      else became of its record and of other providers, whatever the strategy, the memory of the
      selector and the request. */
  lemma TrippedProviderStaysOut(cfg: CooldownConfig, t: Tracked, id: ProviderId, tripped: nat, es: seq<Event>, now: int,
                                ps: seq<Provider>, r: Routing, default: Strategy, opts: SelectOptions)
    requires Keyed(t) && id in t.providers
    requires var fails := |Recent(Entries(t.stores.failures, id), tripped)| + 1;
             Trips(cfg, fails, |Recent(Entries(t.stores.successes, id), tripped)|)
    requires Nondecreasing(es, tripped) && Clock(es, tripped) <= now < tripped + cfg.defaultMs
    requires var after := LazyRun(cfg, LazyStep(cfg, t, Failure(id, tripped)), es);
             DistinctIds(ps) && forall p :: p in ps && p.id == id ==>
               id in after.providers && p.cooldownUntil == after.providers[id].cooldownUntil
    ensures forall c :: c in Select(ps, r, default, opts, now).candidates ==> c.id != id
  {
    CooldownExclusion(cfg, t, id, tripped, es, now);
    var found := Lookup(ps, id);
    if found.Some? {
      CoolingIsNoCandidate(ps, r, default, opts, now, found.value);
    } else {
      forall c | c in Select(ps, r, default, opts, now).candidates ensures c.id != id {
        if opts.targetProviderId.Some? {
          PinnedCandidates(ps, r, default, opts, now);
        } else {
          CandidatesAreTheEligible(ps, r, default, opts, now);
        }
        var q :| q in ps && c == Refresh(q, now) && Eligible(q, opts, now);
      }
    }
  }
}
