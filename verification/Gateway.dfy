/** The gateway (src/core/gateway.ts): slots, provider outcomes and the queue of waiting requests.
    Timers, events and logging are not modelled; a timer that fires is a call of QueueTimeout. */
module Gateway {
  import opened Basics
  import opened Providers
  import opened Registry
  import opened Selector
  import opened Cooldown
  import Concurrency

  /** A queued request. `ticket` stands for the promise its caller awaits. */
  datatype Waiter = Waiter(ticket: nat, targetProviderId: Option<ProviderId>, profileId: Option<string>,
                           enqueuedAt: int)

  datatype Answer = Answer(ticket: nat, granted: bool)

  /** The queue, the answers given so far in order, and the shutdown flag. */
  datatype Queue = Queue(waiting: seq<Waiter>, answers: seq<Answer>, nextTicket: nat, shuttingDown: bool)

  datatype WaitResult = Immediately(granted: bool) | Queued(ticket: nat)

  function Options(target: Option<ProviderId>, profileId: Option<string>): SelectOptions {
    SelectOptions(None, target, profileId, false)
  }

  /** Could some enabled provider take this waiter now? */
  ghost predicate Ready(w: Waiter, ps: seq<Provider>, now: int) {
    Satisfiable(ps, Options(w.targetProviderId, w.profileId), now)
  }

  /** The earliest waiter that is ready, or the queue's length. */
  ghost function FirstReady(waiting: seq<Waiter>, ps: seq<Provider>, now: int): (i: nat)
    ensures i <= |waiting|
    ensures i < |waiting| ==> Ready(waiting[i], ps, now)
    ensures forall j :: 0 <= j < i ==> !Ready(waiting[j], ps, now)
  {
    if waiting == [] then 0
    else if Ready(waiting[0], ps, now) then 0
    else 1 + FirstReady(waiting[1..], ps, now)
  }

  function RemoveAt(waiting: seq<Waiter>, i: nat): seq<Waiter>
    requires i < |waiting|
  {
    waiting[..i] + waiting[i + 1..]
  }

  /** A slot was freed: the earliest ready waiter is granted, nobody else moves. */
  ghost function Dequeued(q: Queue, ps: seq<Provider>, now: int): Queue {
    var i := FirstReady(q.waiting, ps, now);
    if i == |q.waiting| then q
    else q.(waiting := RemoveAt(q.waiting, i), answers := q.answers + [Answer(q.waiting[i].ticket, true)])
  }

  function PositionOf(waiting: seq<Waiter>, ticket: nat): (i: nat)
    ensures i <= |waiting|
    ensures i < |waiting| ==> waiting[i].ticket == ticket
    ensures i == |waiting| ==> forall j :: 0 <= j < |waiting| ==> waiting[j].ticket != ticket
  {
    if waiting == [] then 0 else if waiting[0].ticket == ticket then 0 else 1 + PositionOf(waiting[1..], ticket)
  }

  /** A waiter's timer fired. A timer whose waiter has left the queue settles nothing. */
  function TimedOut(q: Queue, ticket: nat): Queue {
    var i := PositionOf(q.waiting, ticket);
    if i == |q.waiting| then q
    else q.(waiting := RemoveAt(q.waiting, i), answers := q.answers + [Answer(ticket, false)])
  }

  function Refusals(waiting: seq<Waiter>): (r: seq<Answer>)
    ensures |r| == |waiting|
    ensures forall i :: 0 <= i < |r| ==> r[i] == Answer(waiting[i].ticket, false)
  {
    seq(|waiting|, i requires 0 <= i < |waiting| => Answer(waiting[i].ticket, false))
  }

  /** Shutdown begins: everybody still waiting is refused. */
  function Drained(q: Queue): Queue {
    if q.shuttingDown then q
    else q.(waiting := [], answers := q.answers + Refusals(q.waiting), shuttingDown := true)
  }

  /** The configuration check that decides whether waiting can help at all. */
  ghost predicate AnyConfigured(ps: seq<Provider>, profileId: Option<string>) {
    exists p :: p in ps && EligibleForProfile(p.config, profileId)
  }

  /** The pinned provider is missing or cooling down. */
  predicate PinHopeless(ps: seq<Provider>, target: Option<ProviderId>, now: int) {
    target.Some? && (Lookup(ps, target.value).None? || InCooldown(Lookup(ps, target.value).value, now))
  }

  /** A request asks to wait: answered at once, or queued at the end. */
  ghost function Asked(q: Queue, ps: seq<Provider>, target: Option<ProviderId>, profileId: Option<string>,
                       maxQueue: nat, now: int): (Queue, WaitResult)
  {
    AskedWith(q, Satisfiable(ps, Options(target, profileId), now),
              !PinHopeless(ps, target, now) && AnyConfigured(ps, profileId), target, profileId, maxQueue, now)
  }

  function AskedWith(q: Queue, satisfiable: bool, worth: bool, target: Option<ProviderId>, profileId: Option<string>,
                     maxQueue: nat, now: int): (Queue, WaitResult)
  {
    if q.shuttingDown then (q, Immediately(false))
    else if satisfiable then (q, Immediately(true))
    else if !worth || |q.waiting| >= maxQueue then (q, Immediately(false))
    else (q.(waiting := q.waiting + [Waiter(q.nextTicket, target, profileId, now)], nextTicket := q.nextTicket + 1),
          Queued(q.nextTicket))
  }

  // ---------------------------------------------------------------- runs of the queue

  /** What can happen to the queue. The providers are whatever they are at that moment. */
  datatype QueueEvent =
    | Ask(providers: seq<Provider>, target: Option<ProviderId>, profileId: Option<string>, now: int)
    | SlotFreed(providers: seq<Provider>, now: int)
    | Timer(ticket: nat)
    | Shutdown

  ghost function QueueStep(q: Queue, e: QueueEvent, maxQueue: nat): Queue {
    match e
    case Ask(ps, target, profileId, now) => Asked(q, ps, target, profileId, maxQueue, now).0
    case SlotFreed(ps, now) => Dequeued(q, ps, now)
    case Timer(ticket) => TimedOut(q, ticket)
    case Shutdown => Drained(q)
  }

  ghost function QueueRun(q: Queue, es: seq<QueueEvent>, maxQueue: nat): Queue {
    if es == [] then q else QueueStep(QueueRun(q, es[..|es| - 1], maxQueue), es[|es| - 1], maxQueue)
  }

  const EMPTY_QUEUE := Queue([], [], 0, false)

  ghost predicate IsWaiting(q: Queue, ticket: nat) {
    exists i :: 0 <= i < |q.waiting| && q.waiting[i].ticket == ticket
  }

  ghost predicate IsAnswered(q: Queue, ticket: nat) {
    exists i :: 0 <= i < |q.answers| && q.answers[i].ticket == ticket
  }

  /** Tickets wait in the order they were issued, no ticket is answered twice, and every issued
      ticket either waits or has been answered, never both. After shutdown nobody waits. */
  ghost predicate QueueInv(q: Queue, maxQueue: nat) {
    && (forall i, j :: 0 <= i < j < |q.waiting| ==> q.waiting[i].ticket < q.waiting[j].ticket)
    && (forall i, j :: 0 <= i < j < |q.answers| ==> q.answers[i].ticket != q.answers[j].ticket)
    && (forall i :: 0 <= i < |q.waiting| ==> q.waiting[i].ticket < q.nextTicket)
    && (forall i :: 0 <= i < |q.answers| ==> q.answers[i].ticket < q.nextTicket)
    && (forall t: nat :: t < q.nextTicket ==> IsWaiting(q, t) != IsAnswered(q, t))
    && |q.waiting| <= maxQueue
    && (q.shuttingDown ==> q.waiting == [])
  }

  /** Moving one waiter out of the queue with one answer keeps the protocol. */
  lemma AnswerOne(q: Queue, i: nat, granted: bool, maxQueue: nat)
    requires QueueInv(q, maxQueue) && i < |q.waiting|
    ensures QueueInv(q.(waiting := RemoveAt(q.waiting, i),
                        answers := q.answers + [Answer(q.waiting[i].ticket, granted)]), maxQueue)
  {
    var ticket := q.waiting[i].ticket;
    var r := q.(waiting := RemoveAt(q.waiting, i), answers := q.answers + [Answer(ticket, granted)]);
    assert IsWaiting(q, ticket);
    forall t: nat | t < r.nextTicket ensures IsWaiting(r, t) != IsAnswered(r, t) {
      assert IsWaiting(q, t) != IsAnswered(q, t);
      if t == ticket {
        assert r.answers[|q.answers|].ticket == t;
      } else if IsWaiting(q, t) {
        var k :| 0 <= k < |q.waiting| && q.waiting[k].ticket == t;
        assert r.waiting[if k < i then k else k - 1].ticket == t;
      } else {
        var k :| 0 <= k < |q.answers| && q.answers[k].ticket == t;
        assert r.answers[k].ticket == t;
      }
    }
  }

  lemma DrainAll(q: Queue, maxQueue: nat)
    requires QueueInv(q, maxQueue)
    ensures QueueInv(Drained(q), maxQueue)
  {
    var r := Drained(q);
    if !q.shuttingDown {
      forall i, j | 0 <= i < j < |r.answers| ensures r.answers[i].ticket != r.answers[j].ticket {
        if i < |q.answers| <= j {
          assert IsAnswered(q, q.answers[i].ticket);
          assert IsWaiting(q, q.waiting[j - |q.answers|].ticket);
        }
      }
      forall t: nat | t < r.nextTicket ensures IsWaiting(r, t) != IsAnswered(r, t) {
        if IsWaiting(q, t) {
          var k :| 0 <= k < |q.waiting| && q.waiting[k].ticket == t;
          assert r.answers[|q.answers| + k].ticket == t;
        } else {
          var k :| 0 <= k < |q.answers| && q.answers[k].ticket == t;
          assert r.answers[k].ticket == t;
        }
      }
    }
  }

  lemma EnqueueOne(q: Queue, w: Waiter, maxQueue: nat)
    requires QueueInv(q, maxQueue) && !q.shuttingDown && |q.waiting| < maxQueue && w.ticket == q.nextTicket
    ensures QueueInv(q.(waiting := q.waiting + [w], nextTicket := q.nextTicket + 1), maxQueue)
  {
    var r := q.(waiting := q.waiting + [w], nextTicket := q.nextTicket + 1);
    forall t: nat | t < r.nextTicket ensures IsWaiting(r, t) != IsAnswered(r, t) {
      if t == w.ticket {
        assert r.waiting[|q.waiting|].ticket == t;
      } else {
        assert IsWaiting(q, t) != IsAnswered(q, t);
        if IsWaiting(q, t) {
          var k :| 0 <= k < |q.waiting| && q.waiting[k].ticket == t;
          assert r.waiting[k].ticket == t;
        } else {
          var k :| 0 <= k < |q.answers| && q.answers[k].ticket == t;
          assert r.answers[k].ticket == t;
        }
      }
    }
  }

  lemma QueueStepKeeps(q: Queue, e: QueueEvent, maxQueue: nat)
    requires QueueInv(q, maxQueue)
    ensures QueueInv(QueueStep(q, e, maxQueue), maxQueue)
  {
    match e
    case Ask(ps, target, profileId, now) =>
      if Asked(q, ps, target, profileId, maxQueue, now).1.Queued? {
        EnqueueOne(q, Waiter(q.nextTicket, target, profileId, now), maxQueue);
      }
    case SlotFreed(ps, now) =>
      var i := FirstReady(q.waiting, ps, now);
      if i < |q.waiting| { AnswerOne(q, i, true, maxQueue); }
    case Timer(ticket) =>
      var i := PositionOf(q.waiting, ticket);
      if i < |q.waiting| { AnswerOne(q, i, false, maxQueue); }
    case Shutdown => DrainAll(q, maxQueue);
  }

  /** The queue protocol over whole runs: in every reachable state each issued ticket has exactly
      one answer or is still waiting, the queue holds at most `maxQueue` requests in arrival
      order, and it is empty once shutdown has begun. */
  lemma {:induction false} QueueProtocol(es: seq<QueueEvent>, maxQueue: nat)
    ensures QueueInv(QueueRun(EMPTY_QUEUE, es, maxQueue), maxQueue)
  {
    if es != [] {
      QueueProtocol(es[..|es| - 1], maxQueue);
      QueueStepKeeps(QueueRun(EMPTY_QUEUE, es[..|es| - 1], maxQueue), es[|es| - 1], maxQueue);
    }
  }

  /** The last event of the run freed a slot while `ticket` belonged to the earliest ready waiter. */
  ghost predicate JustGranted(q: Queue, es: seq<QueueEvent>, maxQueue: nat, ticket: nat) {
    && es != [] && es[|es| - 1].SlotFreed?
    && var before := QueueRun(q, es[..|es| - 1], maxQueue);
       var f := FirstReady(before.waiting, es[|es| - 1].providers, es[|es| - 1].now);
       f < |before.waiting| && before.waiting[f].ticket == ticket
  }

  /** An answer, once given, stands: the answers of a run extend those it started from. And a
      grant is only ever given by a freed slot, to the earliest waiter that was then ready. */
  lemma {:induction false} GrantsComeFromFreedSlots(q: Queue, es: seq<QueueEvent>, maxQueue: nat)
    ensures q.answers <= QueueRun(q, es, maxQueue).answers
    ensures forall a :: a in QueueRun(q, es, maxQueue).answers[|q.answers|..] && a.granted ==>
              GrantedWithin(q, es, maxQueue, a.ticket)
  {
    if es != [] {
      var earlier := es[..|es| - 1];
      GrantsComeFromFreedSlots(q, earlier, maxQueue);
      var before, after := QueueRun(q, earlier, maxQueue), QueueRun(q, es, maxQueue);
      NewAnswers(before, es[|es| - 1], maxQueue);
      forall a | a in after.answers[|q.answers|..] && a.granted ensures GrantedWithin(q, es, maxQueue, a.ticket) {
        if a in before.answers[|q.answers|..] {
          GrantedEarlier(q, es, maxQueue, a.ticket);
        } else {
          assert a in after.answers[|before.answers|..];
          assert es[..|es|] == es && JustGranted(q, es[..|es|], maxQueue, a.ticket);
        }
      }
    }
  }

  /** Some prefix of the run ended with the grant. */
  ghost predicate GrantedWithin(q: Queue, es: seq<QueueEvent>, maxQueue: nat, ticket: nat) {
    exists i :: 0 < i <= |es| && JustGranted(q, es[..i], maxQueue, ticket)
  }

  lemma GrantedEarlier(q: Queue, es: seq<QueueEvent>, maxQueue: nat, ticket: nat)
    requires es != [] && GrantedWithin(q, es[..|es| - 1], maxQueue, ticket)
    ensures GrantedWithin(q, es, maxQueue, ticket)
  {
    var earlier := es[..|es| - 1];
    var i :| 0 < i <= |earlier| && JustGranted(q, earlier[..i], maxQueue, ticket);
    assert es[..i] == earlier[..i];
  }

  /** One event only adds answers, and grants only what a freed slot grants. */
  lemma NewAnswers(q: Queue, e: QueueEvent, maxQueue: nat)
    ensures var after := QueueStep(q, e, maxQueue);
            && q.answers <= after.answers
            && forall a :: a in after.answers[|q.answers|..] && a.granted ==>
                 && e.SlotFreed?
                 && var f := FirstReady(q.waiting, e.providers, e.now);
                    f < |q.waiting| && q.waiting[f].ticket == a.ticket
  {
  }

  /** Once shutdown has begun the queue stays empty and no ticket is issued any more. */
  lemma {:induction false} ShutdownIsFinal(q: Queue, es: seq<QueueEvent>, maxQueue: nat)
    requires q.shuttingDown && q.waiting == []
    ensures QueueRun(q, es, maxQueue) == q
  {
    if es != [] {
      ShutdownIsFinal(q, es[..|es| - 1], maxQueue);
    }
  }

  /** A freed slot wakes the earliest waiter whose own constraint some provider meets, and only
      that one; everybody else keeps waiting in the same order. */
  lemma WakesEarliestReady(q: Queue, ps: seq<Provider>, now: int, i: nat)
    requires i < |q.waiting| && Ready(q.waiting[i], ps, now)
    requires forall j :: 0 <= j < i ==> !Ready(q.waiting[j], ps, now)
    ensures Dequeued(q, ps, now).answers == q.answers + [Answer(q.waiting[i].ticket, true)]
    ensures Dequeued(q, ps, now).waiting == q.waiting[..i] + q.waiting[i + 1..]
  {
  }

  // ---------------------------------------------------------------- giving up too early, waiting in vain

  /** What the caller routes with. A read-only request writes nothing back, and any provider may serve
      it whatever profile it is bound to. The queue is not told: it looks with `Options` throughout. */
  function Wanted(target: Option<ProviderId>, profileId: Option<string>, readOnly: bool): SelectOptions {
    SelectOptions(None, target, profileId, readOnly)
  }

  predicate Allowed(p: Provider, target: Option<ProviderId>) {
    target.Some? ==> p.id == target.value
  }

  /** Neither cooling down nor full. */
  predicate Free(p: Provider, now: int) {
    !InCooldown(p, now) && HasFreeSlot(p)
  }

  /** What the configuration schema accepts: one profile, or all, but not both. */
  predicate SchemaAccepts(config: ProviderConfig) {
    !(config.profile.Some? && config.multiProfile)
  }

  /** The same providers later on: only slots, cooldowns, counters and latencies may differ. */
  ghost predicate SameSetup(ps: seq<Provider>, later: seq<Provider>) {
    && |ps| == |later|
    && forall k :: 0 <= k < |ps| ==>
         later[k].id == ps[k].id && later[k].config == ps[k].config && later[k].browserserve == ps[k].browserserve
  }

  /** Whatever slots are freed and cooldowns end, the caller will never find a provider. */
  ghost predicate Hopeless(ps: seq<Provider>, target: Option<ProviderId>, profileId: Option<string>, readOnly: bool) {
    forall later, at :: SameSetup(ps, later) ==> !Satisfiable(later, Wanted(target, profileId, readOnly), at)
  }

  function AllFree(ps: seq<Provider>): (later: seq<Provider>)
    ensures |later| == |ps|
    ensures forall k :: 0 <= k < |ps| ==> later[k] == ps[k].(active := 0, cooldownUntil := None)
  {
    seq(|ps|, k requires 0 <= k < |ps| => ps[k].(active := 0, cooldownUntil := None))
  }

  lemma HopelessIff(ps: seq<Provider>, target: Option<ProviderId>, profileId: Option<string>, readOnly: bool)
    ensures Hopeless(ps, target, profileId, readOnly) <==>
            forall p :: p in ps && Allowed(p, target) ==> !readOnly && !EligibleProviderForProfile(p, profileId)
  {
    var opts := Wanted(target, profileId, readOnly);
    if p :| p in ps && Allowed(p, target) && (readOnly || EligibleProviderForProfile(p, profileId)) {
      var k :| 0 <= k < |ps| && ps[k] == p;
      var later := AllFree(ps);
      assert later[k] in later && Eligible(later[k], opts, 0);
      assert SameSetup(ps, later) && Satisfiable(later, opts, 0);
    } else {
      forall later, at | SameSetup(ps, later) ensures !Satisfiable(later, opts, at) {
        forall q | q in later ensures !(Eligible(q, opts, at) && Allowed(q, target)) {
          var k :| 0 <= k < |later| && later[k] == q;
          assert ps[k] in ps;
        }
      }
    }
  }

  /** A request that reaches the configuration check: the gateway is up, the queue's options find no
      provider now, a pinned provider is there and not cooling down, and the queue has room. */
  ghost predicate Checked(q: Queue, ps: seq<Provider>, target: Option<ProviderId>, profileId: Option<string>,
                          maxQueue: nat, now: int)
  {
    && !q.shuttingDown && |q.waiting| < maxQueue
    && !Satisfiable(ps, Options(target, profileId), now) && !PinHopeless(ps, target, now)
  }

  /** The check turns away exactly the requests that no configuration admits, pinned or not, read-only
      or not. It is right to exactly if the pin allows no provider, or the request writes back and no
      allowed provider was detected as browserserve: one that was serves every profile. */
  lemma GivesUpRightlyIff(q: Queue, ps: seq<Provider>, target: Option<ProviderId>, profileId: Option<string>,
                          readOnly: bool, maxQueue: nat, now: int)
    requires Checked(q, ps, target, profileId, maxQueue, now)
    ensures Asked(q, ps, target, profileId, maxQueue, now).1 == Immediately(false) <==> !AnyConfigured(ps, profileId)
    ensures Asked(q, ps, target, profileId, maxQueue, now).1 == Immediately(false) ==>
              (Hopeless(ps, target, profileId, readOnly) <==>
               forall p :: p in ps && Allowed(p, target) ==> !readOnly && !p.browserserve)
  {
    forall p | p in ps && Allowed(p, target) && !AnyConfigured(ps, profileId)
      ensures EligibleProviderForProfile(p, profileId) <==> p.browserserve
    {
      assert !EligibleForProfile(p.config, profileId);
    }
    HopelessIff(ps, target, profileId, readOnly);
  }

  /** A request that is queued waits in vain exactly if it writes back and, of the providers its pin
      allows, none is browserserve and each is bound to another profile. */
  lemma WaitsInVainIff(q: Queue, ps: seq<Provider>, target: Option<ProviderId>, profileId: Option<string>,
                       readOnly: bool, maxQueue: nat, now: int)
    requires Checked(q, ps, target, profileId, maxQueue, now)
    ensures Asked(q, ps, target, profileId, maxQueue, now).1.Queued? <==> AnyConfigured(ps, profileId)
    ensures Asked(q, ps, target, profileId, maxQueue, now).1.Queued? ==>
              (Hopeless(ps, target, profileId, readOnly) <==>
               forall p :: p in ps && Allowed(p, target) ==>
                 !readOnly && !p.browserserve && p.config.profile.Some? && p.config.profile != profileId)
  {
    HopelessIff(ps, target, profileId, readOnly);
  }

  /** With configurations the schema accepts, only a pin can make a request wait in vain: the provider
      that lets an unpinned one into the queue can serve it. */
  lemma OnlyPinsWaitInVain(q: Queue, ps: seq<Provider>, target: Option<ProviderId>, profileId: Option<string>,
                           readOnly: bool, maxQueue: nat, now: int)
    requires Checked(q, ps, target, profileId, maxQueue, now)
    requires forall p :: p in ps ==> SchemaAccepts(p.config)
    requires Asked(q, ps, target, profileId, maxQueue, now).1.Queued? && Hopeless(ps, target, profileId, readOnly)
    ensures target.Some? && !readOnly
  {
    WaitsInVainIff(q, ps, target, profileId, readOnly, maxQueue, now);
    var p :| p in ps && EligibleForProfile(p.config, profileId);
    if target.Some? {
      var pinned := Lookup(ps, target.value).value;
      assert pinned in ps && Allowed(pinned, target);
    } else {
      assert Allowed(p, target);
    }
  }

  /** A grant is never empty: at that moment some provider can serve the request, read-only or not.
      Conversely a waiter the caller could find a provider for is passed over exactly if it is
      read-only and every free provider its pin allows is bound to another profile. */
  lemma GrantMeaning(w: Waiter, ps: seq<Provider>, readOnly: bool, now: int)
    ensures Ready(w, ps, now) ==> Satisfiable(ps, Wanted(w.targetProviderId, w.profileId, readOnly), now)
    ensures Satisfiable(ps, Wanted(w.targetProviderId, w.profileId, readOnly), now) ==>
              (!Ready(w, ps, now) <==>
               readOnly && forall p :: p in ps && Allowed(p, w.targetProviderId) && Free(p, now) ==>
                 !EligibleProviderForProfile(p, w.profileId))
  {
    if Satisfiable(ps, Wanted(w.targetProviderId, w.profileId, readOnly), now) && !readOnly {
      var p :| p in ps && Eligible(p, Wanted(w.targetProviderId, w.profileId, readOnly), now) &&
        Allowed(p, w.targetProviderId);
      assert Eligible(p, Options(w.targetProviderId, w.profileId), now);
    }
    if p :| p in ps && Allowed(p, w.targetProviderId) && Free(p, now) && EligibleProviderForProfile(p, w.profileId) {
      assert Eligible(p, Options(w.targetProviderId, w.profileId), now);
    }
  }

  // ---------------------------------------------------------------- the inputs that show it

  /** A provider bound to one profile, with room for one session, that many running. */
  function Bound(id: ProviderId, profile: string, active: nat): Provider {
    FreshProvider(id, ProviderConfig(1, None, Some(1), Some(profile), false)).(active := active)
  }

  /** A request refused at once although its only provider is merely full: one browserserve
      provider bound to profile "a", one session running, and a request for profile "b". */
  lemma GivesUpTooEarly()
    ensures var busy := Bound("p", "a", 1).(browserserve := true);
            && Asked(EMPTY_QUEUE, [busy], None, Some("b"), 50, 0) == (EMPTY_QUEUE, Immediately(false))
            && Satisfiable([busy.(active := 0)], Wanted(None, Some("b"), false), 0)
  {
  }

  /** The same without any browserserve provider, for a read-only request. */
  lemma ReadOnlyGivesUpTooEarly()
    ensures var busy := Bound("p", "a", 1);
            && Asked(EMPTY_QUEUE, [busy], None, Some("b"), 50, 0) == (EMPTY_QUEUE, Immediately(false))
            && Satisfiable([busy.(active := 0)], Wanted(None, Some("b"), true), 0)
  {
    assert "a"[0] != "b"[0];
    assert Bound("p", "a", 0) in [Bound("p", "a", 0)];
  }

  /** A read-only request for profile "b" waits for one of two full providers. The one for profile "a"
      frees its slot and could serve it, yet nobody is woken. */
  lemma ReadOnlyPassedOver()
    ensures var full, freed := [Bound("y", "a", 1), Bound("z", "b", 1)], [Bound("y", "a", 0), Bound("z", "b", 1)];
            var q := Asked(EMPTY_QUEUE, full, None, Some("b"), 50, 0).0;
            && |q.waiting| == 1 && Dequeued(q, freed, 0) == q
            && Satisfiable(freed, Wanted(None, Some("b"), true), 0)
  {
    var full, freed := [Bound("y", "a", 1), Bound("z", "b", 1)], [Bound("y", "a", 0), Bound("z", "b", 1)];
    assert "a"[0] != "b"[0];
    assert full[1] in full && EligibleForProfile(full[1].config, Some("b"));
    assert freed[0] in freed && Eligible(freed[0], Wanted(None, Some("b"), true), 0);
    var w := Waiter(0, None, Some("b"), 0);
    assert Asked(EMPTY_QUEUE, full, None, Some("b"), 50, 0).0 == EMPTY_QUEUE.(waiting := [w], nextTicket := 1);
    assert !Ready(w, freed, 0);
  }

  lemma PinCannotServe()
    ensures var ps := [Bound("y", "a", 0), Bound("z", "b", 0)];
            Hopeless(ps, Some("y"), Some("b"), false) && AnyConfigured(ps, Some("b")) && !PinHopeless(ps, Some("y"), 0)
  {
    var ps := [Bound("y", "a", 0), Bound("z", "b", 0)];
    assert "y"[0] != "z"[0] && "a"[0] != "b"[0];
    assert ps[0].id == "y" && ps[1].id == "z" && ps[1] in ps && EligibleForProfile(ps[1].config, Some("b"));
    assert forall p :: p in ps && Allowed(p, Some("y")) ==> p == ps[0];
    HopelessIff(ps, Some("y"), Some("b"), false);
  }

  /** A request queued although its pin can never serve it: pinned to a provider of profile "a", for
      profile "b", beside a provider of profile "b" that the pin rules out. */
  lemma WaitsInVain()
    ensures var ps := [Bound("y", "a", 0), Bound("z", "b", 0)];
            && Asked(EMPTY_QUEUE, ps, Some("y"), Some("b"), 50, 0).1.Queued?
            && Hopeless(ps, Some("y"), Some("b"), false)
  {
    PinCannotServe();
    var ps := [Bound("y", "a", 0), Bound("z", "b", 0)];
    assert SameSetup(ps, ps);
  }

  // ---------------------------------------------------------------- asking never changes what is eligible

  /** The same providers, some with a passed cooldown cleared. */
  ghost predicate RefreshedFrom(before: seq<Provider>, after: seq<Provider>, now: int) {
    && |before| == |after|
    && forall k :: 0 <= k < |before| ==> after[k] == before[k] || after[k] == Refresh(before[k], now)
  }

  lemma SelectOnlyRefreshes(ps: seq<Provider>, r: Routing, default: Strategy, opts: SelectOptions, now: int)
    requires DistinctIds(ps)
    ensures RefreshedFrom(ps, Select(ps, r, default, opts, now).providers, now)
  {
    if opts.targetProviderId.Some? {
      var pinned := Lookup(ps, opts.targetProviderId.value);
      if pinned.Some? {
        var k :| 0 <= k < |ps| && ps[k] == pinned.value;
        PutAt(ps, k, Refresh(ps[k], now));
      }
    }
  }

  lemma RefreshedAgain(a: seq<Provider>, b: seq<Provider>, c: seq<Provider>, now: int)
    requires RefreshedFrom(a, b, now) && RefreshedFrom(b, c, now)
    ensures RefreshedFrom(a, c, now)
  {
  }

  lemma RefreshKeepsSatisfiable(a: seq<Provider>, b: seq<Provider>, opts: SelectOptions, now: int)
    requires RefreshedFrom(a, b, now)
    ensures Satisfiable(a, opts, now) <==> Satisfiable(b, opts, now)
  {
  }

  lemma RefreshKeepsChecks(a: seq<Provider>, b: seq<Provider>, target: Option<ProviderId>,
                           profileId: Option<string>, now: int)
    requires RefreshedFrom(a, b, now) && DistinctIds(a)
    ensures PinHopeless(a, target, now) == PinHopeless(b, target, now)
    ensures AnyConfigured(a, profileId) == AnyConfigured(b, profileId)
  {
    RefreshKeepsPin(a, b, target, now);
    RefreshKeepsConfigured(a, b, profileId, now);
  }

  lemma RefreshKeepsPin(a: seq<Provider>, b: seq<Provider>, target: Option<ProviderId>, now: int)
    requires RefreshedFrom(a, b, now) && DistinctIds(a)
    ensures PinHopeless(a, target, now) == PinHopeless(b, target, now)
  {
    if target.Some? && Lookup(a, target.value).Some? {
      var k :| 0 <= k < |a| && a[k] == Lookup(a, target.value).value;
      assert a[k].id == b[k].id && InCooldown(a[k], now) == InCooldown(b[k], now);
      LookupAt(b, k);
    }
  }

  lemma RefreshKeepsConfigured(a: seq<Provider>, b: seq<Provider>, profileId: Option<string>, now: int)
    requires RefreshedFrom(a, b, now)
    ensures AnyConfigured(a, profileId) == AnyConfigured(b, profileId)
  {
    if p :| p in a && EligibleForProfile(p.config, profileId) {
      var k :| 0 <= k < |a| && a[k] == p;
      assert b[k] in b && b[k].config == p.config;
    }
    if p :| p in b && EligibleForProfile(p.config, profileId) {
      var k :| 0 <= k < |b| && b[k] == p;
      assert a[k] in a && a[k].config == p.config;
    }
  }

  // ---------------------------------------------------------------- the gateway object

  /** The moving average of a provider's latency, over the reals. */
  function Measured(p: Provider, latencyMs: real): Provider {
    p.(avgLatencyMs := if p.avgLatencyMs == 0.0 then latencyMs else 0.3 * latencyMs + 0.7 * p.avgLatencyMs)
  }

  class Gateway {
    const registry: ProviderRegistry
    const selector: ProviderSelector
    const concurrency: Concurrency.ConcurrencyTracker
    const cooldown: CooldownTracker
    const maxQueue: nat
    var queue: seq<Waiter>
    var answers: seq<Answer>
    var nextTicket: nat
    var shuttingDown: bool

    constructor (strategy: Strategy, cooldownConfig: CooldownConfig, maxQueue: nat)
      ensures Valid() && this.maxQueue == maxQueue && QueueView() == EMPTY_QUEUE
      ensures registry.View() == RegistryView([], []) && concurrency.sessions == map[]
    {
      var reg := new ProviderRegistry();
      var sel := new ProviderSelector(reg, strategy);
      var con := new Concurrency.ConcurrencyTracker();
      var cool := new CooldownTracker(cooldownConfig);
      registry, selector, concurrency, cooldown := reg, sel, con, cool;
      this.maxQueue := maxQueue;
      queue, answers, nextTicket, shuttingDown := [], [], 0, false;
    }

    ghost predicate Valid()
      reads this, registry
    {
      registry.Valid() && selector.registry == registry
    }

    function QueueView(): Queue
      reads this
    {
      Queue(queue, answers, nextTicket, shuttingDown)
    }

    function LedgerView(): Concurrency.Ledger
      reads this, registry, concurrency
    {
      Concurrency.Ledger(registry.View(), concurrency.sessions, map[])
    }

    method AcquireSlot(providerId: ProviderId, sessionId: Concurrency.SessionId, now: int) returns (ok: bool)
      requires Valid()
      modifies registry, concurrency
      ensures Valid()
      ensures LedgerView() == Concurrency.Step(old(LedgerView()), Concurrency.Acquire(providerId, sessionId, now))
      ensures ok <==> var p := Lookup(old(registry.providers), providerId); p.Some? && !Concurrency.Full(p.value)
    {
      var provider := registry.Get(providerId);
      if provider.None? {
        return false;
      }
      var updated;
      ok, updated := concurrency.Acquire(providerId, sessionId, provider.value, now);
      if ok {
        registry.Store(updated);
      }
    }

    method ApplyProviderConfig(id: ProviderId, config: ProviderConfig, enabled: bool)
      requires Valid()
      modifies registry
      ensures Valid() && LedgerView() == Concurrency.Step(old(LedgerView()), Concurrency.Apply(id, config, enabled))
    {
      if !enabled {
        registry.Disable(id, config);
        return;
      }
      registry.Enable(id, config);
    }

    method ReleaseSlot(sessionId: Concurrency.SessionId, providerId: ProviderId, now: int)
      requires Valid()
      modifies this, registry, selector, concurrency
      ensures Valid()
      ensures var l := Concurrency.Step(old(LedgerView()), Concurrency.Release(sessionId, providerId));
              && concurrency.sessions == l.sessions && registry.disabled == l.registry.disabled
              && RefreshedFrom(l.registry.enabled, registry.providers, now)
              && QueueView() == if Find(old(registry.View()), providerId).None? then old(QueueView())
                                else Dequeued(old(QueueView()), l.registry.enabled, now)
    {
      var provider := registry.GetIncludingDisabled(providerId);
      if provider.None? {
        return;
      }
      ReleaseOnly(sessionId, provider.value);
      DequeueNext(now);
    }

    method ReleaseOnly(sessionId: Concurrency.SessionId, provider: Provider)
      requires Valid() && Find(registry.View(), provider.id) == Some(provider)
      modifies registry, concurrency
      ensures Valid()
      ensures LedgerView() == Concurrency.Step(old(LedgerView()), Concurrency.Release(sessionId, provider.id))
    {
      PutSame(registry.providers, provider.id);
      PutSame(registry.disabled, provider.id);
      var tracked := sessionId in concurrency.sessions;
      var updated := concurrency.Release(sessionId, provider);
      registry.Store(updated);
      assert !tracked ==> concurrency.sessions == old(concurrency.sessions);
    }

    method RecordSuccess(providerId: ProviderId, latencyMs: real, now: int)
      requires Valid()
      modifies registry, cooldown
      ensures Valid()
      ensures var p := Lookup(old(registry.providers), providerId);
              if p.None? then registry.View() == old(registry.View()) && cooldown.Snapshot() == old(cooldown.Snapshot())
              else var (stores, q) := LazySuccess(old(cooldown.Snapshot()), p.value, now);
                   && registry.View() == Stored(old(registry.View()), Measured(q, latencyMs))
                   && cooldown.Snapshot() == stores
    {
      var provider := registry.Get(providerId);
      if provider.None? {
        return;
      }
      var updated := cooldown.RecordSuccess(provider.value, now);
      registry.Store(Measured(updated, latencyMs));
    }

    method RecordFailure(providerId: ProviderId, now: int)
      requires Valid()
      modifies registry, cooldown
      ensures Valid()
      ensures var p := Lookup(old(registry.providers), providerId);
              if p.None? then registry.View() == old(registry.View()) && cooldown.Snapshot() == old(cooldown.Snapshot())
              else var (stores, q) := LazyFailure(cooldown.config, old(cooldown.Snapshot()), p.value, now);
                   registry.View() == Stored(old(registry.View()), q) && cooldown.Snapshot() == stores
    {
      var provider := registry.Get(providerId);
      if provider.None? {
        return;
      }
      var updated := cooldown.RecordFailure(provider.value, now);
      registry.Store(updated);
    }

    method WaitForSlot(target: Option<ProviderId>, profileId: Option<string>, now: int) returns (r: WaitResult)
      requires Valid()
      modifies this, registry, selector
      ensures Valid() && RefreshedFrom(old(registry.providers), registry.providers, now)
      ensures registry.disabled == old(registry.disabled)
      ensures (QueueView(), r) == Asked(old(QueueView()), old(registry.providers), target, profileId, maxQueue, now)
    {
      if shuttingDown {
        return Immediately(false);
      }
      ghost var before := registry.providers;
      var candidates := Candidates(target, profileId, now);
      if candidates != [] {
        return Immediately(true);
      }
      RefreshKeepsChecks(before, registry.providers, target, profileId, now);
      var worth := WorthQueueing(target, profileId, now);
      r := Join(worth, target, profileId, now);
    }

    method Join(worth: bool, target: Option<ProviderId>, profileId: Option<string>, now: int) returns (r: WaitResult)
      requires !shuttingDown
      modifies this
      ensures (QueueView(), r) == AskedWith(old(QueueView()), false, worth, target, profileId, maxQueue, now)
    {
      if !worth || |queue| >= maxQueue {
        return Immediately(false);
      }
      queue := queue + [Waiter(nextTicket, target, profileId, now)];
      nextTicket := nextTicket + 1;
      return Queued(nextTicket - 1);
    }

    /** The two early exits: a hopeless pin, and a profile no configuration admits. */
    method WorthQueueing(target: Option<ProviderId>, profileId: Option<string>, now: int) returns (worth: bool)
      ensures worth <==> !PinHopeless(registry.providers, target, now) && AnyConfigured(registry.providers, profileId)
    {
      if target.Some? {
        var pinned := registry.Get(target.value);
        if pinned.None? || InCooldown(pinned.value, now) {
          return false;
        }
      }
      worth := exists p | p in registry.providers :: EligibleForProfile(p.config, profileId);
    }

    /** Asks the selector; says what the answer means for a waiting request. */
    method Candidates(target: Option<ProviderId>, profileId: Option<string>, now: int)
      returns (candidates: seq<Provider>)
      requires Valid()
      modifies registry, selector
      ensures Valid() && RefreshedFrom(old(registry.providers), registry.providers, now)
      ensures registry.disabled == old(registry.disabled)
      ensures candidates != [] <==> Satisfiable(old(registry.providers), Options(target, profileId), now)
    {
      NonemptyIffSatisfiable(registry.providers, selector.Memory(), selector.defaultStrategy,
                             Options(target, profileId), now);
      SelectOnlyRefreshes(registry.providers, selector.Memory(), selector.defaultStrategy,
                          Options(target, profileId), now);
      candidates := selector.GetCandidates(Options(target, profileId), now);
    }

    method DequeueNext(now: int)
      requires Valid()
      modifies this, registry, selector
      ensures Valid() && RefreshedFrom(old(registry.providers), registry.providers, now)
      ensures registry.disabled == old(registry.disabled)
      ensures QueueView() == Dequeued(old(QueueView()), old(registry.providers), now)
    {
      ghost var before := registry.providers;
      for i := 0 to |queue|
        invariant Valid() && RefreshedFrom(before, registry.providers, now)
        invariant registry.disabled == old(registry.disabled) && QueueView() == old(QueueView())
        invariant forall j :: 0 <= j < i ==> !Ready(queue[j], before, now)
      {
        ghost var current := registry.providers;
        RefreshKeepsSatisfiable(before, current, Options(queue[i].targetProviderId, queue[i].profileId), now);
        var candidates := Candidates(queue[i].targetProviderId, queue[i].profileId, now);
        RefreshedAgain(before, current, registry.providers, now);
        if candidates != [] {
          answers := answers + [Answer(queue[i].ticket, true)];
          queue := RemoveAt(queue, i);
          return;
        }
      }
    }

    /** The timer of a queued request fires. */
    method QueueTimeout(ticket: nat)
      modifies this
      ensures QueueView() == TimedOut(old(QueueView()), ticket)
    {
      var idx := PositionOf(queue, ticket);
      if idx < |queue| {
        queue := RemoveAt(queue, idx);
        answers := answers + [Answer(ticket, false)];
      }
    }

    /** The synchronous part of gracefulShutdown. */
    method BeginShutdown()
      modifies this
      ensures QueueView() == Drained(old(QueueView()))
    {
      if shuttingDown {
        return;
      }
      shuttingDown := true;
      DrainQueue();
    }

    method DrainQueue()
      modifies this`queue, this`answers
      ensures queue == [] && answers == old(answers) + Refusals(old(queue))
    {
      ghost var given := answers;
      for i := 0 to |queue|
        invariant queue == old(queue) && answers == given + Refusals(queue)[..i]
      {
        answers := answers + [Answer(queue[i].ticket, false)];
      }
      queue := [];
    }

    /** The periodic sweep, over the enabled providers only. */
    method ReconcileTick(maxAgeMs: int, now: int) returns (cleaned: nat)
      requires Valid()
      modifies registry, concurrency
      ensures Valid()
      ensures var l := Concurrency.Step(old(LedgerView()), Concurrency.Reconcile(now, maxAgeMs));
              registry.View() == l.registry && concurrency.sessions == l.sessions
    {
      cleaned := concurrency.Reconcile(registry, maxAgeMs, now);
    }
  }
}
