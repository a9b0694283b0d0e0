/** The waiting requests of the gateway, told from the events of a run: which request a ticket
    belongs to, what a grant, a timer and a shutdown mean for it. */
module Requests {
  import opened Basics
  import opened Providers
  import opened Registry
  import opened Selector
  import opened Cooldown
  import opened Gateway

  /** The n-th event of the run is a request that was given this ticket. */
  ghost predicate Issues(es: seq<QueueEvent>, maxQueue: nat, n: nat, ticket: nat) {
    && n < |es| && es[n].Ask?
    && QueueRun(EMPTY_QUEUE, es[..n], maxQueue).nextTicket == ticket
    && QueueRun(EMPTY_QUEUE, es[..n + 1], maxQueue).nextTicket == ticket + 1
  }

  /** The positions in the run of the requests that were given tickets, in order. */
  ghost function AskedAt(es: seq<QueueEvent>, maxQueue: nat): seq<nat> {
    if es == [] then [] else
      var earlier := es[..|es| - 1];
      AskedAt(earlier, maxQueue) +
      if QueueRun(EMPTY_QUEUE, earlier, maxQueue).nextTicket < QueueRun(EMPTY_QUEUE, es, maxQueue).nextTicket
      then [|earlier|] else []
  }

  lemma TicketStep(q: Queue, e: QueueEvent, maxQueue: nat)
    ensures var r := QueueStep(q, e, maxQueue);
            r.nextTicket == q.nextTicket || (r.nextTicket == q.nextTicket + 1 && e.Ask?)
  {
  }

  ghost predicate TicketsKnown(es: seq<QueueEvent>, maxQueue: nat, at: seq<nat>, nextTicket: nat) {
    && |at| == nextTicket
    && (forall t :: 0 <= t < |at| ==> Issues(es, maxQueue, at[t], t))
    && (forall n: nat, t: nat :: Issues(es, maxQueue, n, t) ==> t < |at| && n == at[t])
  }

  lemma IssuesEarlier(es: seq<QueueEvent>, maxQueue: nat, n: nat, t: nat)
    requires es != [] && n < |es| - 1
    ensures Issues(es, maxQueue, n, t) <==> Issues(es[..|es| - 1], maxQueue, n, t)
  {
    var earlier := es[..|es| - 1];
    assert earlier[..n] == es[..n] && earlier[..n + 1] == es[..n + 1];
  }

  /** Every ticket was issued by exactly one request of the run. */
  lemma {:induction false} TicketsOfRun(es: seq<QueueEvent>, maxQueue: nat)
    ensures TicketsKnown(es, maxQueue, AskedAt(es, maxQueue), QueueRun(EMPTY_QUEUE, es, maxQueue).nextTicket)
  {
    if es != [] {
      var earlier, at := es[..|es| - 1], AskedAt(es, maxQueue);
      var q := QueueRun(EMPTY_QUEUE, earlier, maxQueue);
      TicketsOfRun(earlier, maxQueue);
      TicketStep(q, es[|es| - 1], maxQueue);
      assert es[..|es|] == es;
      forall t | 0 <= t < |at| ensures Issues(es, maxQueue, at[t], t) {
        if t < q.nextTicket {
          assert Issues(earlier, maxQueue, at[t], t);
          IssuesEarlier(es, maxQueue, at[t], t);
        }
      }
      forall n: nat, t: nat | Issues(es, maxQueue, n, t) ensures t < |at| && n == at[t] {
        if n < |es| - 1 {
          IssuesEarlier(es, maxQueue, n, t);
        }
      }
    }
  }

  /** The waiter is the request it was made from. */
  ghost predicate IsRequest(w: Waiter, es: seq<QueueEvent>, at: seq<nat>) {
    && w.ticket < |at| && at[w.ticket] < |es| && es[at[w.ticket]].Ask?
    && var e := es[at[w.ticket]];
       w.targetProviderId == e.target && w.profileId == e.profileId && w.enqueuedAt == e.now
  }

  lemma AskJoins(q: Queue, e: QueueEvent, maxQueue: nat)
    ensures var r := QueueStep(q, e, maxQueue);
            forall w :: w in r.waiting ==>
              w in q.waiting ||
              (e.Ask? && r.nextTicket == q.nextTicket + 1 && w == Waiter(q.nextTicket, e.target, e.profileId, e.now))
  {
  }

  /** Whoever waits does so with the target, the profile and the time of the one request that was
      given the ticket. */
  lemma {:induction false} WaitersAreRequests(es: seq<QueueEvent>, maxQueue: nat)
    ensures forall w :: w in QueueRun(EMPTY_QUEUE, es, maxQueue).waiting ==> IsRequest(w, es, AskedAt(es, maxQueue))
  {
    if es != [] {
      var earlier, e := es[..|es| - 1], es[|es| - 1];
      var q, r := QueueRun(EMPTY_QUEUE, earlier, maxQueue), QueueRun(EMPTY_QUEUE, es, maxQueue);
      WaitersAreRequests(earlier, maxQueue);
      TicketsOfRun(earlier, maxQueue);
      AskJoins(q, e, maxQueue);
      forall w | w in r.waiting ensures IsRequest(w, es, AskedAt(es, maxQueue)) {
        if w in q.waiting {
          assert IsRequest(w, earlier, AskedAt(earlier, maxQueue));
        }
      }
    }
  }

  /** Could the request that was given this ticket be served now? */
  ghost predicate Servable(es: seq<QueueEvent>, maxQueue: nat, ticket: nat, ps: seq<Provider>, now: int) {
    exists n: nat :: Issues(es, maxQueue, n, ticket) &&
      Satisfiable(ps, SelectOptions(None, es[n].target, es[n].profileId, false), now)
  }

  lemma OneIssuer(es: seq<QueueEvent>, maxQueue: nat, at: seq<nat>, n: nat, t: nat)
    requires TicketsKnown(es, maxQueue, at, |at|) && t < |at|
    ensures Issues(es, maxQueue, n, t) <==> n == at[t]
  {
  }

  lemma ServableIff(es: seq<QueueEvent>, maxQueue: nat, w: Waiter, ps: seq<Provider>, now: int)
    requires IsRequest(w, es, AskedAt(es, maxQueue))
    ensures Servable(es, maxQueue, w.ticket, ps, now) <==> Ready(w, ps, now)
  {
    var at := AskedAt(es, maxQueue);
    TicketsOfRun(es, maxQueue);
    OneIssuer(es, maxQueue, at, at[w.ticket], w.ticket);
    if n: nat :| Issues(es, maxQueue, n, w.ticket) && n != at[w.ticket] {
      OneIssuer(es, maxQueue, at, n, w.ticket);
    }
  }

  ghost predicate Waits(es: seq<QueueEvent>, maxQueue: nat, ticket: nat) {
    IsWaiting(QueueRun(EMPTY_QUEUE, es, maxQueue), ticket)
  }

  /** It waits, the providers can serve it by its own target and profile, and no earlier one that
      waits. */
  ghost predicate Deserves(es: seq<QueueEvent>, maxQueue: nat, ticket: nat, ps: seq<Provider>, now: int) {
    && Waits(es, maxQueue, ticket) && Servable(es, maxQueue, ticket, ps, now)
    && forall t: nat :: Waits(es, maxQueue, t) && t < ticket ==> !Servable(es, maxQueue, t, ps, now)
  }

  ghost predicate NoneServable(es: seq<QueueEvent>, maxQueue: nat, ps: seq<Provider>, now: int) {
    forall t: nat :: Waits(es, maxQueue, t) ==> !Servable(es, maxQueue, t, ps, now)
  }

  lemma WaiterServableIff(es: seq<QueueEvent>, maxQueue: nat, ps: seq<Provider>, now: int, j: nat)
    requires j < |QueueRun(EMPTY_QUEUE, es, maxQueue).waiting|
    ensures var w := QueueRun(EMPTY_QUEUE, es, maxQueue).waiting[j];
            Servable(es, maxQueue, w.ticket, ps, now) <==> Ready(w, ps, now)
  {
    WaitersAreRequests(es, maxQueue);
    ServableIff(es, maxQueue, QueueRun(EMPTY_QUEUE, es, maxQueue).waiting[j], ps, now);
  }

  lemma EarlierNotServable(es: seq<QueueEvent>, maxQueue: nat, ps: seq<Provider>, now: int, t: nat)
    requires Waits(es, maxQueue, t)
    requires var q := QueueRun(EMPTY_QUEUE, es, maxQueue);
             var i := FirstReady(q.waiting, ps, now);
             i < |q.waiting| ==> t < q.waiting[i].ticket
    ensures !Servable(es, maxQueue, t, ps, now)
  {
    var q := QueueRun(EMPTY_QUEUE, es, maxQueue);
    var j :| 0 <= j < |q.waiting| && q.waiting[j].ticket == t;
    assert j < FirstReady(q.waiting, ps, now) by { QueueProtocol(es, maxQueue); }
    WaiterServableIff(es, maxQueue, ps, now, j);
  }

  lemma FirstReadyDeserves(es: seq<QueueEvent>, maxQueue: nat, ps: seq<Provider>, now: int)
    ensures var q := QueueRun(EMPTY_QUEUE, es, maxQueue);
            var i := FirstReady(q.waiting, ps, now);
            if i < |q.waiting| then Deserves(es, maxQueue, q.waiting[i].ticket, ps, now)
            else NoneServable(es, maxQueue, ps, now)
  {
    var q := QueueRun(EMPTY_QUEUE, es, maxQueue);
    var i := FirstReady(q.waiting, ps, now);
    forall t: nat | Waits(es, maxQueue, t) && (i < |q.waiting| ==> t < q.waiting[i].ticket)
      ensures !Servable(es, maxQueue, t, ps, now)
    {
      EarlierNotServable(es, maxQueue, ps, now, t);
    }
    if i < |q.waiting| {
      WaiterServableIff(es, maxQueue, ps, now, i);
    }
  }

  /** A freed slot grants the earliest waiting request that the providers at that moment can serve, by
      its own target and profile, and leaves the others waiting in order; if there is none, nobody moves. */
  lemma GrantsOwnRequest(es: seq<QueueEvent>, maxQueue: nat, ps: seq<Provider>, now: int)
    ensures var q := QueueRun(EMPTY_QUEUE, es, maxQueue);
            var r := QueueStep(q, SlotFreed(ps, now), maxQueue);
            if NoneServable(es, maxQueue, ps, now) then r == q
            else exists i :: 0 <= i < |q.waiting| && GrantAt(es, maxQueue, q, r, i, ps, now)
  {
    var q := QueueRun(EMPTY_QUEUE, es, maxQueue);
    var i := FirstReady(q.waiting, ps, now);
    FirstReadyDeserves(es, maxQueue, ps, now);
    if i < |q.waiting| {
      assert GrantAt(es, maxQueue, q, QueueStep(q, SlotFreed(ps, now), maxQueue), i, ps, now);
    }
  }

  ghost predicate GrantAt(es: seq<QueueEvent>, maxQueue: nat, q: Queue, r: Queue, i: nat, ps: seq<Provider>, now: int)
    requires i < |q.waiting|
  {
    && Deserves(es, maxQueue, q.waiting[i].ticket, ps, now)
    && r.answers == q.answers + [Answer(q.waiting[i].ticket, true)]
    && r.waiting == q.waiting[..i] + q.waiting[i + 1..]
    && r.nextTicket == q.nextTicket && r.shuttingDown == q.shuttingDown
  }

  /** The i-th event freed a slot for the request that was given this ticket, and that deserved it. */
  ghost predicate GrantedBy(es: seq<QueueEvent>, maxQueue: nat, i: nat, ticket: nat) {
    i < |es| && es[i].SlotFreed? && Deserves(es[..i], maxQueue, ticket, es[i].providers, es[i].now)
  }

  lemma GrantedByLast(es: seq<QueueEvent>, maxQueue: nat, i: nat, ticket: nat)
    requires 0 < i <= |es| && JustGranted(EMPTY_QUEUE, es[..i], maxQueue, ticket)
    ensures GrantedBy(es, maxQueue, i - 1, ticket)
  {
    assert es[..i][..i - 1] == es[..i - 1] && es[..i][i - 1] == es[i - 1];
    FirstReadyDeserves(es[..i - 1], maxQueue, es[i - 1].providers, es[i - 1].now);
  }

  /** Every grant of a run went to a waiting request of the run, at a freed slot, as its own target and
      profile allowed, and before no earlier request that could have been served. */
  lemma EveryGrantIsDeserved(es: seq<QueueEvent>, maxQueue: nat, a: Answer)
    requires a in QueueRun(EMPTY_QUEUE, es, maxQueue).answers && a.granted
    ensures exists i: nat :: GrantedBy(es, maxQueue, i, a.ticket)
    ensures exists n: nat :: Issues(es, maxQueue, n, a.ticket)
  {
    GrantsComeFromFreedSlots(EMPTY_QUEUE, es, maxQueue);
    assert GrantedWithin(EMPTY_QUEUE, es, maxQueue, a.ticket);
    var i :| 0 < i <= |es| && JustGranted(EMPTY_QUEUE, es[..i], maxQueue, a.ticket);
    GrantedByLast(es, maxQueue, i, a.ticket);
    AnsweredWasIssued(es, maxQueue, a);
  }

  lemma AnsweredWasIssued(es: seq<QueueEvent>, maxQueue: nat, a: Answer)
    requires a in QueueRun(EMPTY_QUEUE, es, maxQueue).answers
    ensures exists n: nat :: Issues(es, maxQueue, n, a.ticket)
  {
    QueueProtocol(es, maxQueue);
    TicketsOfRun(es, maxQueue);
    assert Issues(es, maxQueue, AskedAt(es, maxQueue)[a.ticket], a.ticket);
  }

  /** A request that asks is told to go ahead exactly if the gateway is up and some provider can serve
      it; it is queued at the end exactly if none can, there is room, the provider it is pinned to, if
      any, is there and not cooling down, and some configuration admits its profile; otherwise it is
      refused. */
  lemma AskMeaning(q: Queue, ps: seq<Provider>, target: Option<ProviderId>, profileId: Option<string>,
                   maxQueue: nat, now: int)
    ensures var (r, answer) := Asked(q, ps, target, profileId, maxQueue, now);
            var servable := Satisfiable(ps, SelectOptions(None, target, profileId, false), now);
            var joins := && !q.shuttingDown && !servable && |q.waiting| < maxQueue
                         && (target.Some? ==> PinStands(ps, target.value, now)) && Admits(ps, profileId);
            && (answer == Immediately(true) <==> !q.shuttingDown && servable)
            && (answer == Queued(q.nextTicket) <==> joins)
            && (answer == Immediately(false) <==> q.shuttingDown || (!servable && !joins))
            && r == (if joins then q.(waiting := q.waiting + [Waiter(q.nextTicket, target, profileId, now)],
                                      nextTicket := q.nextTicket + 1)
                     else q)
  {
    if target.Some? {
      PinStandsIff(ps, target.value, now);
    }
    AdmitsIff(ps, profileId);
  }

  lemma {:induction false} PinStandsIff(ps: seq<Provider>, id: ProviderId, now: int)
    ensures PinStands(ps, id, now) <==> Lookup(ps, id).Some? && !InCooldown(Lookup(ps, id).value, now)
  {
    if ps != [] {
      PinStandsIff(ps[1..], id, now);
      if ps[0].id == id {
        assert PinStands(ps, id, now) <==> StandsAt(ps, id, now, 0);
      } else {
        PinStandsLater(ps, id, now);
      }
    }
  }

  lemma PinStandsLater(ps: seq<Provider>, id: ProviderId, now: int)
    requires ps != [] && ps[0].id != id
    ensures PinStands(ps, id, now) <==> PinStands(ps[1..], id, now)
  {
    if k :| 0 <= k < |ps| && StandsAt(ps, id, now, k) {
      assert StandsAt(ps[1..], id, now, k - 1);
    }
    if k :| 0 <= k < |ps| - 1 && StandsAt(ps[1..], id, now, k) {
      assert forall j :: 0 < j < k + 1 ==> ps[j] == ps[1..][j - 1];
      assert StandsAt(ps, id, now, k + 1);
    }
  }

  lemma AdmitsIff(ps: seq<Provider>, profileId: Option<string>)
    ensures Admits(ps, profileId) <==> AnyConfigured(ps, profileId)
  {
  }

  /** The first provider of this name is not cooling down. */
  ghost predicate PinStands(ps: seq<Provider>, id: ProviderId, now: int) {
    exists k :: 0 <= k < |ps| && StandsAt(ps, id, now, k)
  }

  ghost predicate StandsAt(ps: seq<Provider>, id: ProviderId, now: int, k: nat)
    requires k < |ps|
  {
    && ps[k].id == id && (forall j :: 0 <= j < k ==> ps[j].id != id)
    && (ps[k].cooldownUntil.None? || ps[k].cooldownUntil.value == 0 || ps[k].cooldownUntil.value <= now)
  }

  /** Some configuration serves every profile, has none of its own, or has this one. */
  ghost predicate Admits(ps: seq<Provider>, profileId: Option<string>) {
    exists k :: 0 <= k < |ps| &&
      (ps[k].config.multiProfile || ps[k].config.profile.None? || ps[k].config.profile == profileId)
  }

  /** A timer refuses its own waiter and nobody else; one that comes too late does nothing. */
  lemma TimerMeaning(q: Queue, ticket: nat, maxQueue: nat, i: nat)
    requires i <= |q.waiting| && (i < |q.waiting| ==> q.waiting[i].ticket == ticket)
    requires forall j :: 0 <= j < |q.waiting| && j != i ==> q.waiting[j].ticket != ticket
    ensures QueueStep(q, Timer(ticket), maxQueue) ==
            if i == |q.waiting| then q
            else q.(waiting := q.waiting[..i] + q.waiting[i + 1..], answers := q.answers + [Answer(ticket, false)])
  {
  }

  /** A shutdown refuses everybody who waits, in order, and gives nobody else an answer. */
  lemma ShutdownMeaning(q: Queue, maxQueue: nat)
    requires !q.shuttingDown
    ensures var r := QueueStep(q, Shutdown, maxQueue);
            && r.waiting == [] && r.shuttingDown && r.nextTicket == q.nextTicket
            && |r.answers| == |q.answers| + |q.waiting| && r.answers[..|q.answers|] == q.answers
            && forall i :: 0 <= i < |q.waiting| ==>
                 r.answers[|q.answers| + i] == Answer(q.waiting[i].ticket, false)
  {
  }

  // ---------------------------------------------------------------- the measured latency

  /** After the latencies of a run of successes. */
  function MeasuredAll(p: Provider, latencies: seq<real>): Provider {
    if latencies == [] then p else Measured(MeasuredAll(p, latencies[..|latencies| - 1]), latencies[|latencies| - 1])
  }

  /** Every latency after the first counts three tenths, fading by seven tenths with each success that
      follows; the first one, found with nothing measured, counts whole. */
  function WeightedSum(latencies: seq<real>): real
    requires latencies != []
  {
    var n := |latencies| - 1;
    if n == 0 then latencies[0] else 0.3 * latencies[n] + 0.7 * WeightedSum(latencies[..n])
  }

  lemma {:induction false} AverageMeaning(p: Provider, latencies: seq<real>)
    requires p.avgLatencyMs == 0.0 && latencies != [] && forall i :: 0 <= i < |latencies| ==> 0.0 < latencies[i]
    ensures MeasuredAll(p, latencies) == p.(avgLatencyMs := WeightedSum(latencies))
    ensures 0.0 < WeightedSum(latencies)
  {
    var n := |latencies| - 1;
    if n != 0 {
      AverageMeaning(p, latencies[..n]);
    } else {
      assert MeasuredAll(p, latencies[..0]) == p;
    }
  }

  /** The average stays within the latencies measured. */
  lemma {:induction false} AverageWithin(latencies: seq<real>, low: real, high: real)
    requires latencies != [] && forall i :: 0 <= i < |latencies| ==> low <= latencies[i] <= high
    ensures low <= WeightedSum(latencies) <= high
  {
    if |latencies| > 1 {
      AverageWithin(latencies[..|latencies| - 1], low, high);
    }
  }
}
