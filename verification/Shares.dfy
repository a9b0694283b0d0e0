/** What weighted routing gives each provider over many answers of the selector. */
module Shares {
  import opened Basics
  import opened Providers
  import opened WeightedRoundRobin
  import opened Selector

  /** The configured weight, or one. */
  function ShareOf(p: Provider): int {
    match p.config.weight
    case Some(w) => w
    case None => 1
  }

  function TotalShare(cs: seq<Provider>): int {
    if cs == [] then 0 else TotalShare(cs[..|cs| - 1]) + ShareOf(cs[|cs| - 1])
  }

  /** The selector's memory after `t` weighted answers on the same candidates. */
  function WeightedTurns(r: Routing, cs: seq<Provider>, t: nat): Routing
    requires cs != []
  {
    if t == 0 then r else Ordered(WeightedTurns(r, cs, t - 1), cs, Weighted).1
  }

  /** How many of those answers name this provider first. */
  function WeightedLed(r: Routing, cs: seq<Provider>, t: nat, id: ProviderId): nat
    requires cs != []
  {
    if t == 0 then 0 else
      WeightedLed(r, cs, t - 1, id) +
      if Ordered(WeightedTurns(r, cs, t - 1), cs, Weighted).0[0].id == id then 1 else 0
  }

  function Repeated(cs: seq<Provider>, t: nat): (calls: seq<seq<Provider>>)
    ensures |calls| == t && forall i :: 0 <= i < t ==> calls[i] == cs
  {
    if t == 0 then [] else Repeated(cs, t - 1) + [cs]
  }

  lemma OneTurn(r: Routing, cs: seq<Provider>)
    requires cs != []
    ensures var (order, routing) := Ordered(r, cs, Weighted);
            order[0] == Lead(r.weightedState, cs) && routing.weightedState == Next(r.weightedState, cs)
  {
  }

  lemma LedOnceMore(m: Counters, calls: seq<seq<Provider>>, cs: seq<Provider>, id: ProviderId)
    requires cs != [] && forall i :: 0 <= i < |calls| ==> calls[i] != []
    ensures Led(m, calls + [cs], id) ==
            Led(m, calls, id) + if Lead(WeightedRoundRobin.Run(m, calls), cs).id == id then 1 else 0
    ensures WeightedRoundRobin.Run(m, calls + [cs]) == Next(WeightedRoundRobin.Run(m, calls), cs)
  {
    assert (calls + [cs])[..|calls|] == calls;
  }

  lemma {:induction false} TurnsAreRuns(r: Routing, cs: seq<Provider>, t: nat, id: ProviderId)
    requires cs != []
    ensures WeightedTurns(r, cs, t).weightedState == WeightedRoundRobin.Run(r.weightedState, Repeated(cs, t))
    ensures WeightedLed(r, cs, t, id) == Led(r.weightedState, Repeated(cs, t), id)
  {
    if t != 0 {
      TurnsAreRuns(r, cs, t - 1, id);
      OneTurn(WeightedTurns(r, cs, t - 1), cs);
      LedOnceMore(r.weightedState, Repeated(cs, t - 1), cs, id);
    }
  }

  function SharesOf(cs: seq<Provider>): Counters {
    if cs == [] then map[] else SharesOf(cs[..|cs| - 1])[cs[|cs| - 1].id := ShareOf(cs[|cs| - 1])]
  }

  lemma {:induction false} SharesNamed(cs: seq<Provider>, id: ProviderId)
    requires DistinctIds(cs)
    ensures id in SharesOf(cs) <==> exists i :: 0 <= i < |cs| && cs[i].id == id
    ensures forall i :: 0 <= i < |cs| && cs[i].id == id ==> SharesOf(cs)[id] == ShareOf(cs[i])
  {
    if cs != [] {
      var front, last := cs[..|cs| - 1], cs[|cs| - 1];
      SharesNamed(front, id);
      if last.id == id {
        assert cs[|cs| - 1].id == id;
      } else if i :| 0 <= i < |front| && front[i].id == id {
        assert cs[i].id == id;
      }
    }
  }

  lemma SharesAreOffered(cs: seq<Provider>)
    requires DistinctIds(cs)
    ensures Offers(cs, SharesOf(cs))
    ensures forall i :: 0 <= i < |cs| ==> cs[i].id in SharesOf(cs) && SharesOf(cs)[cs[i].id] == ShareOf(cs[i])
  {
    forall i | 0 <= i < |cs| ensures cs[i].id in SharesOf(cs) && SharesOf(cs)[cs[i].id] == ShareOf(cs[i]) {
      SharesNamed(cs, cs[i].id);
    }
    forall id | id in SharesOf(cs) ensures exists i :: 0 <= i < |cs| && cs[i].id == id {
      SharesNamed(cs, id);
    }
  }

  lemma {:induction false} TotalShareIsSum(cs: seq<Provider>)
    ensures TotalShare(cs) == TotalWeight(cs)
  {
    if cs != [] {
      TotalShareIsSum(cs[..|cs| - 1]);
    }
  }

  lemma SumOfShares(cs: seq<Provider>)
    requires DistinctIds(cs)
    ensures Sum(SharesOf(cs).Keys, SharesOf(cs)) == TotalShare(cs)
  {
    SharesAreOffered(cs);
    TotalWeightIsSum(cs, SharesOf(cs));
    TotalShareIsSum(cs);
    assert IdSet(cs) == SharesOf(cs).Keys;
  }

  lemma AllCallsOffer(cs: seq<Provider>, t: nat)
    requires DistinctIds(cs) && cs != [] && forall i :: 0 <= i < |cs| ==> 1 <= ShareOf(cs[i])
    ensures Steady(Repeated(cs, t), SharesOf(cs))
  {
    SharesAreOffered(cs);
    assert cs[0].id in SharesOf(cs);
    forall id | id in SharesOf(cs) ensures 1 <= SharesOf(cs)[id] {
      var i :| 0 <= i < |cs| && cs[i].id == id;
    }
  }

  /** Of k times the total weight weighted answers of the selector on the same candidates, every
      candidate leads exactly k times its configured weight, or k times if it has none. */
  lemma WeightedShares(r: Routing, cs: seq<Provider>, k: nat, t: nat, j: nat)
    requires DistinctIds(cs) && j < |cs| && forall i :: 0 <= i < |cs| ==> 1 <= ShareOf(cs[i])
    requires forall i :: 0 <= i < |cs| ==> Get(r.weightedState, cs[i].id) == 0
    requires t == k * TotalShare(cs)
    ensures WeightedLed(r, cs, t, cs[j].id) == k * ShareOf(cs[j])
  {
    var w := SharesOf(cs);
    AllCallsOffer(cs, t);
    SharesAreOffered(cs);
    SumOfShares(cs);
    forall id | id in w ensures Get(r.weightedState, id) == 0 {
      var i :| 0 <= i < |cs| && cs[i].id == id;
    }
    ExactFairness(r.weightedState, Repeated(cs, t), w, k, cs[j].id);
    TurnsAreRuns(r, cs, t, cs[j].id);
  }
}
