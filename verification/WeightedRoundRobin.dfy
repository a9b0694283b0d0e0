/** Smooth weighted round-robin (src/core/router/selector.ts, smoothWeightedRoundRobin):
    the counters it keeps, and the exact shares they give every candidate. */
module WeightedRoundRobin {
  import opened Providers

  type Counters = map<ProviderId, int>

  function Get(m: Counters, id: ProviderId): int {
    if id in m then m[id] else 0
  }

  function TotalWeight(cs: seq<Provider>): int {
    if cs == [] then 0 else TotalWeight(cs[..|cs| - 1]) + Weight(cs[|cs| - 1])
  }

  /** The counters after every candidate has received its own weight. */
  function Bump(m: Counters, cs: seq<Provider>): Counters {
    if cs == [] then m else
      var before := Bump(m, cs[..|cs| - 1]);
      var c := cs[|cs| - 1];
      before[c.id := Get(before, c.id) + Weight(c)]
  }

  /** The position of the first candidate with the highest counter. */
  function Leader(m: Counters, cs: seq<Provider>): (b: nat)
    requires cs != []
    ensures b < |cs|
    ensures forall j :: 0 <= j < |cs| ==> Get(m, cs[j].id) <= Get(m, cs[b].id)
    ensures forall j :: 0 <= j < b ==> Get(m, cs[j].id) < Get(m, cs[b].id)
  {
    var last := |cs| - 1;
    if last == 0 then 0 else
      var b := Leader(m, cs[..last]);
      assert cs[..last][b] == cs[b];
      assert forall j :: 0 <= j < last ==> cs[..last][j] == cs[j];
      if Get(m, cs[last].id) > Get(m, cs[b].id) then last else b
  }

  /** Who leads the next answer. */
  function Lead(m: Counters, cs: seq<Provider>): Provider
    requires cs != []
  {
    cs[Leader(Bump(m, cs), cs)]
  }

  /** The counters the next call starts from. */
  function Next(m: Counters, cs: seq<Provider>): Counters
    requires cs != []
  {
    var bumped := Bump(m, cs);
    var best := cs[Leader(bumped, cs)];
    bumped[best.id := Get(bumped, best.id) - TotalWeight(cs)]
  }

  function Without(cs: seq<Provider>, id: ProviderId): seq<Provider> {
    if cs == [] then [] else
      Without(cs[..|cs| - 1], id) + if cs[|cs| - 1].id != id then [cs[|cs| - 1]] else []
  }

  // ---------------------------------------------------------------- sums of counters

  ghost function Sum(ids: set<ProviderId>, m: Counters): int {
    if ids == {} then 0 else
      var k :| k in ids;
      Get(m, k) + Sum(ids - {k}, m)
  }

  lemma {:induction false} SumRemove(ids: set<ProviderId>, m: Counters, k: ProviderId)
    requires k in ids
    ensures Sum(ids, m) == Get(m, k) + Sum(ids - {k}, m)
    decreases ids
  {
    var j :| j in ids && Sum(ids, m) == Get(m, j) + Sum(ids - {j}, m);
    if j != k {
      SumRemove(ids - {j}, m, k);
      SumRemove(ids - {k}, m, j);
      assert ids - {j} - {k} == ids - {k} - {j};
    }
  }

  lemma {:induction false} SumSame(ids: set<ProviderId>, m: Counters, n: Counters)
    requires forall k :: k in ids ==> Get(m, k) == Get(n, k)
    ensures Sum(ids, m) == Sum(ids, n)
    decreases ids
  {
    if ids != {} {
      var k :| k in ids;
      SumRemove(ids, m, k);
      SumRemove(ids, n, k);
      SumSame(ids - {k}, m, n);
    }
  }

  lemma SumUpdate(ids: set<ProviderId>, m: Counters, k: ProviderId, v: int)
    requires k in ids
    ensures Sum(ids, m[k := v]) == Sum(ids, m) - Get(m, k) + v
  {
    SumRemove(ids, m, k);
    SumRemove(ids, m[k := v], k);
    SumSame(ids - {k}, m, m[k := v]);
  }

  lemma Distribute(a: int, n: int)
    ensures a * (n + 1) == a * n + a
  {
  }

  lemma {:induction false} SumAtLeast(ids: set<ProviderId>, m: Counters, low: int)
    requires forall k :: k in ids ==> low <= Get(m, k)
    ensures low * |ids| <= Sum(ids, m)
    decreases ids
  {
    if ids != {} {
      var k :| k in ids;
      SumRemove(ids, m, k);
      SumAtLeast(ids - {k}, m, low);
      assert |ids| == |ids - {k}| + 1;
      Distribute(low, |ids - {k}|);
    }
  }

  lemma {:induction false} SumAtMostZero(ids: set<ProviderId>, m: Counters)
    requires forall k :: k in ids ==> Get(m, k) <= 0
    ensures Sum(ids, m) <= 0
    decreases ids
  {
    if ids != {} {
      var k :| k in ids;
      SumRemove(ids, m, k);
      SumAtMostZero(ids - {k}, m);
    }
  }

  // ---------------------------------------------------------------- any run: the counters sum to zero

  ghost function Total(m: Counters): int {
    Sum(m.Keys, m)
  }

  lemma TotalUpdate(m: Counters, k: ProviderId, v: int)
    ensures Total(m[k := v]) == Total(m) - Get(m, k) + v
  {
    var n := m[k := v];
    if k in m {
      assert n.Keys == m.Keys;
      SumUpdate(m.Keys, m, k, v);
    } else {
      assert n.Keys - {k} == m.Keys;
      SumRemove(n.Keys, n, k);
      SumSame(m.Keys, m, n);
    }
  }

  lemma {:induction false} BumpTotal(m: Counters, cs: seq<Provider>)
    ensures Total(Bump(m, cs)) == Total(m) + TotalWeight(cs)
  {
    if cs != [] {
      var before := Bump(m, cs[..|cs| - 1]);
      var c := cs[|cs| - 1];
      BumpTotal(m, cs[..|cs| - 1]);
      TotalUpdate(before, c.id, Get(before, c.id) + Weight(c));
    }
  }

  /** One call keeps the total of all counters, whatever the candidates and the weights are. */
  lemma NextTotal(m: Counters, cs: seq<Provider>)
    requires cs != []
    ensures Total(Next(m, cs)) == Total(m)
  {
    var bumped := Bump(m, cs);
    var best := cs[Leader(bumped, cs)];
    BumpTotal(m, cs);
    TotalUpdate(bumped, best.id, Get(bumped, best.id) - TotalWeight(cs));
  }

  /** The counters after a run of calls, each with its own candidate list. */
  function Run(m: Counters, calls: seq<seq<Provider>>): Counters
    requires forall i :: 0 <= i < |calls| ==> calls[i] != []
  {
    if calls == [] then m else Next(Run(m, calls[..|calls| - 1]), calls[|calls| - 1])
  }

  /** How often a candidate led the answer during a run. */
  function Led(m: Counters, calls: seq<seq<Provider>>, id: ProviderId): nat
    requires forall i :: 0 <= i < |calls| ==> calls[i] != []
  {
    if calls == [] then 0 else
      var earlier := calls[..|calls| - 1];
      Led(m, earlier, id) + if Lead(Run(m, earlier), calls[|calls| - 1]).id == id then 1 else 0
  }

  /** Over every run, even when providers come and go or change weight between calls,
      the counters always sum to zero. */
  lemma {:induction false} ZeroSum(calls: seq<seq<Provider>>)
    requires forall i :: 0 <= i < |calls| ==> calls[i] != []
    ensures Total(Run(map[], calls)) == 0
  {
    if calls != [] {
      ZeroSum(calls[..|calls| - 1]);
      NextTotal(Run(map[], calls[..|calls| - 1]), calls[|calls| - 1]);
    }
  }

  // ---------------------------------------------------------------- a fixed candidate set: exact shares

  /** The list offers exactly the providers of `w`, each once and with that weight.
      The order is free: it decides ties only. */
  ghost predicate Offers(cs: seq<Provider>, w: Counters) {
    && DistinctIds(cs)
    && (forall i :: 0 <= i < |cs| ==> cs[i].id in w && Weight(cs[i]) == w[cs[i].id])
    && (forall id :: id in w ==> exists i :: 0 <= i < |cs| && cs[i].id == id)
  }

  ghost function IdSet(cs: seq<Provider>): set<ProviderId> {
    set i | 0 <= i < |cs| :: cs[i].id
  }

  lemma {:induction false} TotalWeightIsSum(cs: seq<Provider>, w: Counters)
    requires DistinctIds(cs)
    requires forall i :: 0 <= i < |cs| ==> cs[i].id in w && Weight(cs[i]) == w[cs[i].id]
    ensures TotalWeight(cs) == Sum(IdSet(cs), w)
  {
    if cs != [] {
      var front, c := cs[..|cs| - 1], cs[|cs| - 1];
      TotalWeightIsSum(front, w);
      assert c.id in IdSet(cs);
      SumRemove(IdSet(cs), w, c.id);
      IdSetFront(cs);
    }
  }

  lemma IdSetFront(cs: seq<Provider>)
    requires cs != [] && DistinctIds(cs)
    ensures IdSet(cs[..|cs| - 1]) == IdSet(cs) - {cs[|cs| - 1].id}
  {
  }

  lemma {:induction false} BumpGet(m: Counters, cs: seq<Provider>, id: ProviderId)
    requires DistinctIds(cs)
    ensures forall i :: 0 <= i < |cs| && cs[i].id == id ==> Get(Bump(m, cs), id) == Get(m, id) + Weight(cs[i])
    ensures (forall i :: 0 <= i < |cs| ==> cs[i].id != id) ==> Get(Bump(m, cs), id) == Get(m, id)
  {
    if cs != [] {
      BumpGet(m, cs[..|cs| - 1], id);
    }
  }

  /** What one call does to the counter of an offered provider. */
  lemma NextGet(m: Counters, cs: seq<Provider>, w: Counters, id: ProviderId)
    requires Offers(cs, w) && id in w
    ensures cs != []
    ensures Get(Next(m, cs), id) ==
            Get(m, id) + w[id] - if Lead(m, cs).id == id then Sum(w.Keys, w) else 0
  {
    var i :| 0 <= i < |cs| && cs[i].id == id;
    BumpGet(m, cs, id);
    TotalWeightIsSum(cs, w);
    assert IdSet(cs) == w.Keys;
  }

  /** After the weights are added the leader's counter is positive. */
  lemma LeaderPositive(m: Counters, cs: seq<Provider>, w: Counters)
    requires Offers(cs, w) && cs != []
    requires Sum(w.Keys, m) == 0
    requires 0 < Sum(w.Keys, w)
    ensures 0 < Get(Bump(m, cs), Lead(m, cs).id)
  {
    var bumped := Bump(m, cs);
    BumpSum(m, cs, w);
    if Get(bumped, Lead(m, cs).id) <= 0 {
      forall k | k in w.Keys ensures Get(bumped, k) <= 0 {
        var i :| 0 <= i < |cs| && cs[i].id == k;
      }
      SumAtMostZero(w.Keys, bumped);
    }
  }

  lemma NextSum(m: Counters, cs: seq<Provider>, w: Counters)
    requires Offers(cs, w) && cs != []
    ensures Sum(w.Keys, Next(m, cs)) == Sum(w.Keys, m)
  {
    var bumped, best := Bump(m, cs), Lead(m, cs).id;
    BumpSum(m, cs, w);
    TotalWeightIsSum(cs, w);
    assert IdSet(cs) == w.Keys;
    SumUpdate(w.Keys, bumped, best, Get(bumped, best) - TotalWeight(cs));
  }

  lemma BumpSum(m: Counters, cs: seq<Provider>, w: Counters)
    requires Offers(cs, w)
    ensures Sum(w.Keys, Bump(m, cs)) == Sum(w.Keys, m) + Sum(w.Keys, w)
  {
    forall k | k in w.Keys ensures Get(Bump(m, cs), k) == Get(m, k) + Get(w, k) {
      var i :| 0 <= i < |cs| && cs[i].id == k;
      BumpGet(m, cs, k);
    }
    SumAdd(w.Keys, m, w, Bump(m, cs));
  }

  lemma {:induction false} SumAdd(ids: set<ProviderId>, a: Counters, b: Counters, c: Counters)
    requires forall k :: k in ids ==> Get(c, k) == Get(a, k) + Get(b, k)
    ensures Sum(ids, c) == Sum(ids, a) + Sum(ids, b)
    decreases ids
  {
    if ids != {} {
      var k :| k in ids;
      SumRemove(ids, a, k);
      SumRemove(ids, b, k);
      SumRemove(ids, c, k);
      SumAdd(ids - {k}, a, b, c);
    }
  }

  /** A run over a fixed set of providers: every call offers exactly the providers of `w`. */
  ghost predicate Steady(calls: seq<seq<Provider>>, w: Counters) {
    && w != map[]
    && (forall id :: id in w ==> 1 <= w[id])
    && (forall i :: 0 <= i < |calls| ==> calls[i] != [])
    && (forall i {:trigger Offers(calls[i], w)} :: 0 <= i < |calls| ==> Offers(calls[i], w))
  }

  lemma PositiveTotal(w: Counters)
    requires w != map[]
    requires forall id :: id in w ==> 1 <= w[id]
    ensures 0 < Sum(w.Keys, w)
  {
    SumAtLeast(w.Keys, w, 1);
    assert |w.Keys| > 0 by {
      var k :| k in w;
      assert k in w.Keys;
    }
  }

  /** After t calls a counter is the provider's entitlement minus what it was given, and above
      minus the total. */
  predicate Balance(counter: int, t: nat, weight: int, total: int, led: nat) {
    counter == Times(t, weight) - Times(led, total) && -total < counter
  }

  /** Multiplication as repeated addition: one more call or lead is one more summand. */
  function Times(n: nat, x: int): int {
    if n == 0 then 0 else Times(n - 1, x) + x
  }

  lemma {:induction false} TimesIsProduct(n: nat, x: int)
    ensures Times(n, x) == n * x
  {
    if n > 0 {
      TimesIsProduct(n - 1, x);
      Distribute(x, n - 1);
    }
  }

  ghost predicate Booked(m: Counters, calls: seq<seq<Provider>>, w: Counters, id: ProviderId)
    requires forall i :: 0 <= i < |calls| ==> calls[i] != []
    requires id in w
  {
    Balance(Get(Run(m, calls), id), |calls|, w[id], Sum(w.Keys, w), Led(m, calls, id))
  }

  lemma OneMoreCall(m: Counters, earlier: seq<seq<Provider>>, cs: seq<Provider>, id: ProviderId)
    requires forall i :: 0 <= i < |earlier| ==> earlier[i] != []
    requires cs != []
    ensures Run(m, earlier + [cs]) == Next(Run(m, earlier), cs)
    ensures Led(m, earlier + [cs], id) == Led(m, earlier, id) + if Lead(Run(m, earlier), cs).id == id then 1 else 0
  {
  }

  lemma BookedStep(m: Counters, earlier: seq<seq<Provider>>, cs: seq<Provider>, w: Counters, id: ProviderId)
    requires forall i :: 0 <= i < |earlier| ==> earlier[i] != []
    requires Offers(cs, w) && cs != [] && id in w && 1 <= w[id]
    requires Booked(m, earlier, w, id) && Sum(w.Keys, Run(m, earlier)) == 0 && 0 < Sum(w.Keys, w)
    ensures Booked(m, earlier + [cs], w, id)
  {
    var before, led := Run(m, earlier), Led(m, earlier, id);
    var counter, led' := Get(Next(before, cs), id), led + if Lead(before, cs).id == id then 1 else 0;
    assert |earlier + [cs]| == |earlier| + 1;
    assert Balance(counter, |earlier + [cs]|, w[id], Sum(w.Keys, w), led') by {
      StepBalance(before, cs, w, id, |earlier|, led);
    }
    assert counter == Get(Run(m, earlier + [cs]), id) && led' == Led(m, earlier + [cs], id) by {
      OneMoreCall(m, earlier, cs, id);
    }
    assert Booked(m, earlier + [cs], w, id);
  }

  lemma StepBalance(m: Counters, cs: seq<Provider>, w: Counters, id: ProviderId, t: nat, led: nat)
    requires Offers(cs, w) && cs != [] && id in w && 1 <= w[id]
    requires Sum(w.Keys, m) == 0 && 0 < Sum(w.Keys, w)
    requires Balance(Get(m, id), t, w[id], Sum(w.Keys, w), led)
    ensures Balance(Get(Next(m, cs), id), t + 1, w[id], Sum(w.Keys, w), led + if Lead(m, cs).id == id then 1 else 0)
  {
    StepAbove(m, cs, w, id);
  }

  /** The counters of the offered providers sum to zero throughout a steady run. */
  lemma {:induction false} SteadySum(m: Counters, calls: seq<seq<Provider>>, w: Counters)
    requires Steady(calls, w)
    requires forall id :: id in w ==> Get(m, id) == 0
    ensures Sum(w.Keys, Run(m, calls)) == 0
  {
    if calls == [] {
      SumAtLeast(w.Keys, m, 0);
      SumAtMostZero(w.Keys, m);
    } else {
      var earlier := calls[..|calls| - 1];
      SteadySum(m, earlier, w);
      NextSum(Run(m, earlier), calls[|calls| - 1], w);
    }
  }

  /** The book-keeping of a steady run: each counter is the provider's entitlement minus what it
      was given, and none falls to minus the total weight. */
  lemma {:induction false} SteadyRun(m: Counters, calls: seq<seq<Provider>>, w: Counters, id: ProviderId)
    requires Steady(calls, w) && id in w
    requires forall k :: k in w ==> Get(m, k) == 0
    ensures Booked(m, calls, w, id)
  {
    PositiveTotal(w);
    if calls != [] {
      var earlier := calls[..|calls| - 1];
      assert Booked(m, earlier, w, id) by { SteadyRun(m, earlier, w, id); }
      assert Sum(w.Keys, Run(m, earlier)) == 0 by { SteadySum(m, earlier, w); }
      var last := calls[|calls| - 1];
      assert calls == earlier + [last];
      assert Booked(m, earlier + [last], w, id) by { BookedStep(m, earlier, last, w, id); }
    }
  }

  /** One steady step: the counter gains its weight, pays the total if it leads, and stays above
      minus the total. */
  lemma StepAbove(m: Counters, cs: seq<Provider>, w: Counters, id: ProviderId)
    requires Offers(cs, w) && cs != [] && id in w && 1 <= w[id]
    requires Sum(w.Keys, m) == 0 && 0 < Sum(w.Keys, w)
    requires -Sum(w.Keys, w) < Get(m, id)
    ensures Get(Next(m, cs), id) ==
            Get(m, id) + w[id] - if Lead(m, cs).id == id then Sum(w.Keys, w) else 0
    ensures -Sum(w.Keys, w) < Get(Next(m, cs), id)
  {
    NextGet(m, cs, w, id);
    if Lead(m, cs).id == id {
      LeaderPositive(m, cs, w);
      var i :| 0 <= i < |cs| && cs[i].id == id;
      BumpGet(m, cs, id);
    }
  }

  /** Fairness at every prefix, from above: with total weight W and counters starting at zero, after
      t calls a provider of weight w has led at most (t w + W - 1) / W times. */
  lemma NeverFarAhead(m: Counters, calls: seq<seq<Provider>>, w: Counters, id: ProviderId)
    requires Steady(calls, w) && id in w
    requires forall k :: k in w ==> Get(m, k) == 0
    ensures -Sum(w.Keys, w) < Get(Run(m, calls), id)
    ensures Sum(w.Keys, w) * Led(m, calls, id) <= |calls| * w[id] + Sum(w.Keys, w) - 1
  {
    SteadyRun(m, calls, w, id);
    LedAtMost(Get(Run(m, calls), id), |calls|, w[id], Sum(w.Keys, w), Led(m, calls, id));
  }

  /** Fairness at every prefix, from below: where n - 1 other providers share the calls, it has led
      at least (t w - (n-1)(W-1)) / W times. */
  lemma NeverFarBehind(m: Counters, calls: seq<seq<Provider>>, w: Counters, id: ProviderId,
                       total: int, others: nat, led: nat)
    requires Steady(calls, w) && id in w
    requires forall k :: k in w ==> Get(m, k) == 0
    requires total == Sum(w.Keys, w) && others == |w.Keys - {id}| && led == Led(m, calls, id)
    ensures Get(Run(m, calls), id) <= Times(others, total - 1)
    ensures |calls| * w[id] - others * (total - 1) <= total * led
  {
    var counter := Get(Run(m, calls), id);
    assert counter <= Times(others, total - 1) by { NotFarAbove(m, calls, w, id); }
    assert Balance(counter, |calls|, w[id], total, led) by { SteadyRun(m, calls, w, id); }
    LedAtLeast(counter, |calls|, w[id], total, led, others);
  }

  lemma LedAtMost(counter: int, t: nat, weight: int, total: int, led: nat)
    requires Balance(counter, t, weight, total, led)
    ensures total * led <= t * weight + total - 1
    ensures counter == t * weight - total * led
  {
    TimesIsProduct(t, weight);
    TimesIsProduct(led, total);
  }

  lemma LedAtLeast(counter: int, t: nat, weight: int, total: int, led: nat, others: nat)
    requires Balance(counter, t, weight, total, led)
    requires counter <= Times(others, total - 1)
    ensures t * weight - others * (total - 1) <= total * led
  {
    TimesIsProduct(t, weight);
    TimesIsProduct(led, total);
    TimesIsProduct(others, total - 1);
  }

  lemma NoneFarBelow(m: Counters, calls: seq<seq<Provider>>, w: Counters)
    requires Steady(calls, w)
    requires forall k :: k in w ==> Get(m, k) == 0
    ensures forall k <- w.Keys :: -Sum(w.Keys, w) < Get(Run(m, calls), k)
  {
    forall k | k in w.Keys ensures -Sum(w.Keys, w) < Get(Run(m, calls), k) {
      SteadyRun(m, calls, w, k);
    }
  }

  lemma NotFarAbove(m: Counters, calls: seq<seq<Provider>>, w: Counters, id: ProviderId)
    requires Steady(calls, w) && id in w
    requires forall k :: k in w ==> Get(m, k) == 0
    ensures Get(Run(m, calls), id) <= Times(|w.Keys - {id}|, Sum(w.Keys, w) - 1)
  {
    var end, total := Run(m, calls), Sum(w.Keys, w);
    assert forall k <- w.Keys :: -total < Get(end, k) by { NoneFarBelow(m, calls, w); }
    assert Sum(w.Keys, end) == 0 by { SteadySum(m, calls, w); }
    OthersBalance(w.Keys, end, total, id);
  }

  /** Where counters sum to zero and each is above minus the total, the others bound each one. */
  lemma OthersBalance(ids: set<ProviderId>, m: Counters, total: int, id: ProviderId)
    requires id in ids && Sum(ids, m) == 0
    requires forall k <- ids :: -total < Get(m, k)
    ensures Get(m, id) <= Times(|ids - {id}|, total - 1)
  {
    SumRemove(ids, m, id);
    SumAtLeast(ids - {id}, m, 1 - total);
    TimesIsProduct(|ids - {id}|, total - 1);
    Mirrored(|ids - {id}|, total - 1);
  }

  lemma Mirrored(a: int, b: int)
    ensures -b * a == -(a * b)
  {
  }

  /** Exact fairness. After k full cycles of W calls every provider has led exactly
      k times its weight and every counter is back at zero. */
  lemma ExactFairness(m: Counters, calls: seq<seq<Provider>>, w: Counters, k: nat, id: ProviderId)
    requires Steady(calls, w) && id in w
    requires forall j :: j in w ==> Get(m, j) == 0
    requires |calls| == k * Sum(w.Keys, w)
    ensures Led(m, calls, id) == k * w[id]
    ensures Get(Run(m, calls), id) == 0
  {
    SteadySum(m, calls, w);
    PositiveTotal(w);
    var end := Run(m, calls);
    forall j | j in w ensures 0 <= Get(end, j) {
      FullShare(m, calls, w, k, j);
    }
    SumRemove(w.Keys, end, id);
    SumAtLeast(w.Keys - {id}, end, 0);
    FullShare(m, calls, w, k, id);
  }

  lemma FullShare(m: Counters, calls: seq<seq<Provider>>, w: Counters, k: nat, id: ProviderId)
    requires Steady(calls, w) && id in w
    requires forall j :: j in w ==> Get(m, j) == 0
    requires |calls| == k * Sum(w.Keys, w) && 0 < Sum(w.Keys, w)
    ensures 0 <= Get(Run(m, calls), id)
    ensures Get(Run(m, calls), id) == 0 ==> Led(m, calls, id) == k * w[id]
  {
    var total, led := Sum(w.Keys, w), Led(m, calls, id);
    SteadyRun(m, calls, w, id);
    LedAtMost(Get(Run(m, calls), id), |calls|, w[id], total, led);
    FullCycles(k, total, w[id], led);
  }

  /** A counter that is a multiple of the total and above minus the total is not negative;
      if it is zero the share is exact. */
  lemma FullCycles(k: int, total: int, w: int, led: int)
    requires 0 < total
    requires -total < k * total * w - total * led
    ensures 0 <= k * total * w - total * led
    ensures k * total * w - total * led == 0 ==> led == k * w
  {
    var q := k * w - led;
    assert k * total * w == total * (k * w);
    assert total * (k * w) - total * led == total * q;
    NegativeMultiple(total, q);
  }

  lemma NegativeMultiple(total: int, q: int)
    requires 0 < total
    ensures q <= -1 ==> total * q <= -total
  {
  }
}
