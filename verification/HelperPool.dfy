/** The shared-cursor worker pool (src/core/profile/helper-pool.ts, runHelperPool). Each worker is
    suspended while its work runs; any worker may go on at any moment. */
module HelperPool {

  /** A worker is about to look at the cursor, waits for work on an origin, or has ended. */
  datatype Worker = Looping | Working(index: nat) | Returned

  datatype Report = Success(index: nat) | Error(index: nat)

  datatype Pool = Pool(origins: nat, workers: seq<Worker>, cursor: nat, aborted: bool, reports: seq<Report>)

  /** What the awaited work and the two callbacks do. An error callback that throws ends its worker. */
  datatype Outcome = WorkSucceeds | WorkFails(fatal: bool) | CallbackThrows(fatal: bool)

  datatype Event = Look(worker: nat) | Finish(finished: nat, outcome: Outcome) | Abort

  function Started(origins: nat, helpers: nat): Pool {
    Pool(origins, seq(helpers, _ => Looping), 0, false, [])
  }

  /** The success callback is called inside the try block, so one that throws is reported as an
      error as well. */
  function ReportsOf(index: nat, outcome: Outcome): seq<Report> {
    match outcome
    case WorkSucceeds => [Success(index)]
    case WorkFails(_) => [Error(index)]
    case CallbackThrows(_) => [Success(index), Error(index)]
  }

  function Fatal(outcome: Outcome): bool {
    !outcome.WorkSucceeds? && outcome.fatal
  }

  function Looked(p: Pool, w: nat): Pool
    requires w < |p.workers|
  {
    if p.aborted then p.(workers := p.workers[w := Returned])
    else p.(cursor := p.cursor + 1,
            workers := p.workers[w := if p.origins <= p.cursor then Returned else Working(p.cursor)])
  }

  function Finished(p: Pool, w: nat, outcome: Outcome): Pool
    requires w < |p.workers| && p.workers[w].Working?
  {
    p.(workers := p.workers[w := if Fatal(outcome) then Returned else Looping],
       reports := p.reports + ReportsOf(p.workers[w].index, outcome))
  }

  function Step(p: Pool, e: Event): Pool {
    match e
    case Look(w) => if w < |p.workers| && p.workers[w] == Looping then Looked(p, w) else p
    case Finish(w, outcome) => if w < |p.workers| && p.workers[w].Working? then Finished(p, w, outcome) else p
    case Abort => p.(aborted := true)
  }

  function Run(p: Pool, es: seq<Event>): Pool {
    if es == [] then p else Step(Run(p, es[..|es| - 1]), es[|es| - 1])
  }

  /** How often an origin was reported. */
  function Count(reports: seq<Report>, index: nat): nat {
    if reports == [] then 0 else
      Count(reports[..|reports| - 1], index) + if reports[|reports| - 1].index == index then 1 else 0
  }

  // ---------------------------------------------------------------- the invariant

  ghost predicate InWork(p: Pool, index: nat) {
    exists w :: 0 <= w < |p.workers| && p.workers[w] == Working(index)
  }

  ghost predicate SeparateWork(p: Pool) {
    forall v, w :: 0 <= v < w < |p.workers| && p.workers[v].Working? && p.workers[w].Working? ==>
      p.workers[v].index != p.workers[w].index
  }

  /** The origin whose success callback threw in an event, if the event did happen to one: the
      named worker was at work. */
  function ThrewIn(p: Pool, e: Event): set<nat> {
    match e
    case Finish(w, CallbackThrows(_)) => if w < |p.workers| && p.workers[w].Working? then {p.workers[w].index} else {}
    case _ => {}
  }

  /** The origins whose success callback threw during a run. */
  function Threw(p: Pool, es: seq<Event>): set<nat> {
    if es == [] then {} else
      Threw(p, es[..|es| - 1]) + ThrewIn(Run(p, es[..|es| - 1]), es[|es| - 1])
  }

  /** An origin is still ahead of the cursor, in one worker's hands, or reported: twice if its
      success callback threw, else once. */
  ghost predicate Placed(p: Pool, i: nat, threw: set<nat>) {
    if i < p.cursor && i < p.origins && !InWork(p, i) then Count(p.reports, i) == if i in threw then 2 else 1
    else Count(p.reports, i) == 0 && i !in threw && (InWork(p, i) ==> i < p.cursor && i < p.origins)
  }

  /** `smooth`: no abort and no error callback that threw. */
  ghost predicate Inv(p: Pool, threw: set<nat>, smooth: bool) {
    && (forall i: nat :: Placed(p, i, threw))
    && SeparateWork(p)
    && (smooth ==> !p.aborted && forall w :: 0 <= w < |p.workers| && p.workers[w] == Returned ==> p.origins < p.cursor)
  }

  predicate Smooth(es: seq<Event>) {
    forall i :: 0 <= i < |es| ==> es[i] != Abort && (es[i].Finish? ==> !Fatal(es[i].outcome))
  }

  lemma CountAppend(reports: seq<Report>, r: Report, index: nat)
    ensures Count(reports + [r], index) == Count(reports, index) + if r.index == index then 1 else 0
  {
  }

  lemma CountReports(reports: seq<Report>, done: nat, outcome: Outcome, index: nat)
    ensures Count(reports + ReportsOf(done, outcome), index) ==
            Count(reports, index) + if done == index then |ReportsOf(done, outcome)| else 0
  {
    match outcome
    case WorkSucceeds => CountAppend(reports, Success(done), index);
    case WorkFails(_) => CountAppend(reports, Error(done), index);
    case CallbackThrows(_) =>
      CountAppend(reports, Success(done), index);
      CountAppend(reports + [Success(done)], Error(done), index);
      assert reports + [Success(done)] + [Error(done)] == reports + [Success(done), Error(done)];
  }

  /** Who works on what after one worker's state changed. */
  lemma InWorkAfter(p: Pool, w: nat, now: Worker, i: nat)
    requires w < |p.workers| && SeparateWork(p)
    ensures InWork(p.(workers := p.workers[w := now]), i) <==>
            now == Working(i) || (InWork(p, i) && p.workers[w] != Working(i))
  {
    var q := p.(workers := p.workers[w := now]);
    if now == Working(i) {
      assert q.workers[w] == Working(i);
    } else if InWork(p, i) && p.workers[w] != Working(i) {
      var v :| 0 <= v < |p.workers| && p.workers[v] == Working(i);
      assert q.workers[v] == Working(i);
    }
  }

  lemma LookPlaces(p: Pool, w: nat, threw: set<nat>, i: nat)
    requires w < |p.workers| && p.workers[w] == Looping && SeparateWork(p) && Placed(p, i, threw)
    ensures Placed(Looked(p, w), i, threw)
  {
    var q := Looked(p, w);
    InWorkAfter(p, w, q.workers[w], i);
    assert InWork(q, i) <==> InWork(p.(workers := p.workers[w := q.workers[w]]), i);
  }

  lemma LookKeeps(p: Pool, w: nat, threw: set<nat>, smooth: bool)
    requires Inv(p, threw, smooth) && w < |p.workers| && p.workers[w] == Looping
    ensures Inv(Looked(p, w), threw, smooth)
  {
    forall i: nat ensures Placed(Looked(p, w), i, threw) {
      LookPlaces(p, w, threw, i);
    }
    assert Placed(p, p.cursor, threw);
    forall x | 0 <= x < |p.workers| && p.workers[x].Working? ensures p.workers[x].index != p.cursor {
      assert p.workers[x] == Working(p.workers[x].index);
    }
  }

  lemma FinishPlaces(p: Pool, w: nat, outcome: Outcome, threw: set<nat>, i: nat)
    requires w < |p.workers| && p.workers[w].Working? && SeparateWork(p) && Placed(p, i, threw)
    ensures Placed(Finished(p, w, outcome), i, threw + ThrewIn(p, Finish(w, outcome)))
  {
    var q := Finished(p, w, outcome);
    var done := p.workers[w].index;
    assert InWork(p, done);
    InWorkAfter(p, w, q.workers[w], i);
    assert InWork(q, i) <==> InWork(p.(workers := p.workers[w := q.workers[w]]), i);
    CountReports(p.reports, done, outcome, i);
  }

  lemma FinishKeeps(p: Pool, w: nat, outcome: Outcome, threw: set<nat>, smooth: bool)
    requires Inv(p, threw, smooth) && w < |p.workers| && p.workers[w].Working?
    requires smooth ==> !Fatal(outcome)
    ensures Inv(Finished(p, w, outcome), threw + ThrewIn(p, Finish(w, outcome)), smooth)
  {
    forall i: nat ensures Placed(Finished(p, w, outcome), i, threw + ThrewIn(p, Finish(w, outcome))) {
      assert Placed(p, i, threw);
      FinishPlaces(p, w, outcome, threw, i);
    }
  }

  lemma AbortKeeps(p: Pool, threw: set<nat>)
    requires Inv(p, threw, false)
    ensures Inv(p.(aborted := true), threw, false)
  {
    forall i: nat ensures Placed(p.(aborted := true), i, threw) {
      assert Placed(p, i, threw);
      assert InWork(p.(aborted := true), i) <==> InWork(p, i);
    }
  }

  lemma StepKeeps(p: Pool, e: Event, threw: set<nat>, smooth: bool)
    requires Inv(p, threw, smooth) && (smooth ==> Smooth([e]))
    ensures Inv(Step(p, e), threw + ThrewIn(p, e), smooth)
  {
    assert smooth ==> [e][0] != Abort && (e.Finish? ==> !Fatal(e.outcome));
    assert threw + {} == threw;
    match e
    case Look(w) => if w < |p.workers| && p.workers[w] == Looping { LookKeeps(p, w, threw, smooth); }
    case Finish(w, outcome) =>
      if w < |p.workers| && p.workers[w].Working? { FinishKeeps(p, w, outcome, threw, smooth); }
    case Abort => AbortKeeps(p, threw);
  }

  lemma {:induction false} RunKeeps(origins: nat, helpers: nat, es: seq<Event>, smooth: bool)
    requires smooth ==> Smooth(es)
    ensures var p := Run(Started(origins, helpers), es);
            Inv(p, Threw(Started(origins, helpers), es), smooth) && p.origins == origins && |p.workers| == helpers
  {
    if es != [] {
      var earlier := es[..|es| - 1];
      RunKeeps(origins, helpers, earlier, smooth);
      StepKeeps(Run(Started(origins, helpers), earlier), es[|es| - 1], Threw(Started(origins, helpers), earlier),
                smooth);
    }
  }

  // ---------------------------------------------------------------- what is reported

  ghost predicate AllReturned(p: Pool) {
    forall w :: 0 <= w < |p.workers| ==> p.workers[w] == Returned
  }

  /** In any interleaving, with aborts and throwing callbacks, once all workers have ended an origin
      the cursor has passed is reported twice if its success callback threw and exactly once
      otherwise; any other origin not at all. */
  lemma TakenIsReported(origins: nat, helpers: nat, es: seq<Event>, i: nat)
    requires AllReturned(Run(Started(origins, helpers), es))
    ensures var p := Run(Started(origins, helpers), es);
            Count(p.reports, i) ==
            if p.cursor <= i || origins <= i then 0 else if i in Threw(Started(origins, helpers), es) then 2 else 1
  {
    RunKeeps(origins, helpers, es, false);
    var p := Run(Started(origins, helpers), es);
    assert Placed(p, i, Threw(Started(origins, helpers), es)) && !InWork(p, i);
  }

  /** With at least one helper, no abort and no throwing error callback, once every worker has
      returned every origin has been reported, exactly once or, where its success callback threw,
      twice; and nothing else was. */
  lemma EveryOriginReportedOnce(origins: nat, helpers: nat, es: seq<Event>, i: nat)
    requires 0 < helpers && Smooth(es) && AllReturned(Run(Started(origins, helpers), es))
    ensures Count(Run(Started(origins, helpers), es).reports, i) ==
            if origins <= i then 0 else if i in Threw(Started(origins, helpers), es) then 2 else 1
  {
    RunKeeps(origins, helpers, es, true);
    TakenIsReported(origins, helpers, es, i);
    assert Run(Started(origins, helpers), es).workers[0] == Returned;
  }

  /** A success callback that throws has its origin reported twice. */
  lemma ThrowingCallbackReportsTwice()
    ensures var p := Step(Step(Started(1, 1), Look(0)), Finish(0, CallbackThrows(false)));
            Count(p.reports, 0) == 2
  {
    CountReports([], 0, CallbackThrows(false), 0);
    assert [] + ReportsOf(0, CallbackThrows(false)) == ReportsOf(0, CallbackThrows(false));
  }

  /** The origin whose work settled in an event, if the named worker was at work. */
  function SettledIn(p: Pool, e: Event): set<nat> {
    if e.Finish? && e.finished < |p.workers| && p.workers[e.finished].Working? then {p.workers[e.finished].index}
    else {}
  }

  /** The origins whose work succeeded during a run. */
  function Succeeded(p: Pool, es: seq<Event>): set<nat> {
    if es == [] then {} else
      var e := es[|es| - 1];
      Succeeded(p, es[..|es| - 1]) +
      if e.Finish? && !e.outcome.WorkFails? then SettledIn(Run(p, es[..|es| - 1]), e) else {}
  }

  /** The origins whose work, or whose success callback, failed. */
  function Failed(p: Pool, es: seq<Event>): set<nat> {
    if es == [] then {} else
      var e := es[|es| - 1];
      Failed(p, es[..|es| - 1]) +
      if e.Finish? && !e.outcome.WorkSucceeds? then SettledIn(Run(p, es[..|es| - 1]), e) else {}
  }

  /** In every interleaving an origin has a success report exactly if its work succeeded, and an error
      report exactly if its work or its success callback failed. */
  lemma {:induction false} ReportsMatchOutcomes(p: Pool, es: seq<Event>, i: nat)
    requires p.reports == []
    ensures Success(i) in Run(p, es).reports <==> i in Succeeded(p, es)
    ensures Error(i) in Run(p, es).reports <==> i in Failed(p, es)
  {
    if es != [] {
      ReportsMatchOutcomes(p, es[..|es| - 1], i);
      StepReports(Run(p, es[..|es| - 1]), es[|es| - 1], i);
    }
  }

  lemma StepReports(p: Pool, e: Event, i: nat)
    ensures Success(i) in Step(p, e).reports <==>
            Success(i) in p.reports || (e.Finish? && !e.outcome.WorkFails? && i in SettledIn(p, e))
    ensures Error(i) in Step(p, e).reports <==>
            Error(i) in p.reports || (e.Finish? && !e.outcome.WorkSucceeds? && i in SettledIn(p, e))
  {
  }

  /** A worker that looks takes the next origin, which nobody else gets, unless there is none left or
      the run was aborted; it goes on after its work unless an error callback threw. */
  lemma WorkerMeaning(p: Pool, w: nat, outcome: Outcome)
    requires w < |p.workers|
    ensures p.workers[w] == Looping ==>
              var q := Step(p, Look(w));
              && q.workers == p.workers[w := if p.aborted || p.origins <= p.cursor then Returned else Working(p.cursor)]
              && q.cursor == (if p.aborted then p.cursor else p.cursor + 1) && q.reports == p.reports
    ensures p.workers[w].Working? ==>
              var q := Step(p, Finish(w, outcome));
              && q.workers == p.workers[w := if outcome == WorkSucceeds || !outcome.fatal then Looping else Returned]
              && q.cursor == p.cursor
  {
  }

  // ---------------------------------------------------------------- the shared state in place

  /** What the workers of one call share: the cursor, and the callbacks' record. */
  class HelperPool {
    const origins: nat
    var workers: seq<Worker>
    var cursor: nat
    var aborted: bool
    var reports: seq<Report>

    constructor (origins: nat, helpers: nat)
      ensures View() == Started(origins, helpers)
    {
      this.origins := origins;
      workers, cursor, aborted, reports := seq(helpers, _ => Looping), 0, false, [];
    }

    function View(): Pool
      reads this
    {
      Pool(origins, workers, cursor, aborted, reports)
    }

    /** The head of a worker's loop, up to awaiting its work. */
    method TakeNext(w: nat)
      requires w < |workers| && workers[w] == Looping
      modifies this
      ensures View() == Step(old(View()), Look(w))
    {
      if aborted {
        workers := workers[w := Returned];
        return;
      }
      var index := cursor;
      cursor := cursor + 1;
      if index >= origins {
        workers := workers[w := Returned];
        return;
      }
      workers := workers[w := Working(index)];
    }

    /** The rest of the loop body, once the work has settled. */
    method SettleWork(w: nat, outcome: Outcome)
      requires w < |workers| && workers[w].Working?
      modifies this
      ensures View() == Step(old(View()), Finish(w, outcome))
    {
      var index := workers[w].index;
      var failed := outcome.WorkFails?;
      if !failed {
        reports := reports + [Success(index)];
        failed := outcome.CallbackThrows?;
      }
      workers := workers[w := Looping];
      if failed {
        reports := reports + [Error(index)];
        if outcome.fatal {
          workers := workers[w := Returned];
        }
      }
    }
  }
}
