/** What the steps of the session pool do to its sessions and handles, field by field, and the
    tally they keep: the pages of a session are its live handles and its releases in flight. */
module PoolPages {
  import opened Basics
  import opened SessionPool

  lemma FoundAt(ss: seq<PoolSession>, i: nat)
    requires DistinctSessions(ss) && i < |ss|
    ensures IndexOf(ss, ss[i].id) == i
  {
  }

  // ---------------------------------------------------------------- giving a page back

  /** A finished release takes one page off its session, not below zero; a retiring session that
      has none left leaves the map. Nothing else in the map changes. */
  lemma ReleaseMeaning(c: PoolConfig, p: Pool, k: nat, now: int, i: nat)
    requires DistinctSessions(p.sessions) && k < |p.releasing|
    requires i < |p.sessions| && p.sessions[i].id == p.releasing[k]
    ensures var q, s := Step(c, p, ContextClosed(k, now)), p.sessions[i];
            var pages := if s.activePages == 0 then 0 else s.activePages - 1;
            && q.handles == p.handles && q.releasing == p.releasing[..k] + p.releasing[k + 1..]
            && q.closing == p.closing + (if s.state == Retiring && pages == 0 then 1 else 0)
            && q.sessions == (if s.state == Retiring && pages == 0 then p.sessions[..i] + p.sessions[i + 1..]
                              else p.sessions[i := s.(activePages := pages, lastActivity := now)])
  {
    FoundAt(p.sessions, i);
  }

  /** The release of a page whose session has left the map changes no session. */
  lemma LateRelease(c: PoolConfig, p: Pool, k: nat, now: int)
    requires k < |p.releasing| && forall i :: 0 <= i < |p.sessions| ==> p.sessions[i].id != p.releasing[k]
    ensures Step(c, p, ContextClosed(k, now)) == p.(releasing := p.releasing[..k] + p.releasing[k + 1..])
  {
  }

  // ---------------------------------------------------------------- handing a page out

  /** At most one session more, at the end, which is being started. */
  predicate GrownByOne(before: seq<PoolSession>, after: seq<PoolSession>, id: nat, now: int) {
    after == before || after == before + [PoolSession(id, Starting, 0, 0, now, now)]
  }

  lemma CapacityGrows(c: PoolConfig, p: Pool, now: int)
    ensures var q := EnsuredCapacity(c, p, now);
            && GrownByOne(p.sessions, q.sessions, p.nextId, now) && p.nextId <= q.nextId
            && (q.sessions != p.sessions ==> q.nextId == p.nextId + 1)
            && q.handles == p.handles && q.releasing == p.releasing && q.acquisition == p.acquisition
            && q.waiting == p.waiting && q.detached == p.detached
  {
  }

  /** An opened page is one page more, and one more served, on its session, which retires if that
      was its last; it is handed out under a new identifier. Every other session is as it was, but
      for one that may be started. */
  lemma OpenedMeaning(c: PoolConfig, p: Pool, now: int, i: nat)
    requires DistinctSessions(p.sessions)
    requires i < |p.sessions| && p.acquisition == Opening(p.sessions[i].id) && 0 < c.maxPagesPerSession
    ensures var q, s := Step(c, p, Opened(now)), p.sessions[i];
            var last := s.state == Active && c.retireAfterPages <= s.totalPagesServed + 1;
            var counted := s.(activePages := s.activePages + 1, totalPagesServed := s.totalPagesServed + 1,
                              lastActivity := now, state := if last then Retiring else s.state);
            && q.acquisition == Idle && q.releasing == p.releasing
            && q.handles == p.handles + [PageHandle(p.nextId, s.id, now)]
            && GrownByOne(p.sessions[i := counted], q.sessions, p.nextId + 1, now)
  {
    FoundAt(p.sessions, i);
    var q := HandedOut(p, p.sessions[i].id, now);
    CapacityGrows(c, Counted(c, q, i, now), now);
  }

  /** A page opened on a session that has left the map in the meantime is handed out all the same. */
  lemma OpenedOnLeaver(c: PoolConfig, p: Pool, now: int, id: nat)
    requires p.acquisition == Opening(id) && forall i :: 0 <= i < |p.sessions| ==> p.sessions[i].id != id
    ensures var q := Step(c, p, Opened(now));
            && q.acquisition == Idle && q.releasing == p.releasing
            && q.handles == p.handles + [PageHandle(p.nextId, id, now)]
            && GrownByOne(p.sessions, q.sessions, p.nextId + 1, now)
  {
    CapacityGrows(c, HandedOut(p, id, now), now);
  }

  // ---------------------------------------------------------------- scaling up

  function ActivePages(ss: seq<PoolSession>): nat {
    if ss == [] then 0 else
      ActivePages(ss[..|ss| - 1]) + if ss[|ss| - 1].state == Active then ss[|ss| - 1].activePages else 0
  }

  /** The free slots are what all active sessions offer less the pages they have. */
  lemma {:induction false} SlotsMeaning(c: PoolConfig, ss: seq<PoolSession>)
    ensures AvailableSlots(c, ss) + ActivePages(ss) == c.maxPagesPerSession * CountByState(ss, Active)
  {
    if ss != [] {
      var n := CountByState(ss[..|ss| - 1], Active);
      SlotsMeaning(c, ss[..|ss| - 1]);
      assert c.maxPagesPerSession * (n + 1) == c.maxPagesPerSession * n + c.maxPagesPerSession;
    }
  }

  /** A request starts another session exactly if none is being created, fewer than maxSessions are
      active or starting, and fewer than three slots, or than three tenths of a session's, are free. */
  lemma ScaleUpIff(c: PoolConfig, p: Pool, now: int)
    ensures var q := Step(c, p, AcquirePage(now));
            var free := c.maxPagesPerSession * CountByState(p.sessions, Active) - ActivePages(p.sessions);
            var more := && !p.creatingSession
                        && CountByState(p.sessions, Active) + CountByState(p.sessions, Starting) < c.maxSessions
                        && (free < 3 || 10 * (free + 1) <= 3 * c.maxPagesPerSession);
            && q.pending == p.pending + 1 && q.handles == p.handles && q.creatingSession == (p.creatingSession || more)
            && q.sessions ==
               (if more then p.sessions + [PoolSession(p.nextId, Starting, 0, 0, now, now)] else p.sessions)
  {
    SlotsMeaning(c, p.sessions);
  }

  // ---------------------------------------------------------------- choosing and waiting

  /** A session another page may be opened on. */
  predicate Open(c: PoolConfig, s: PoolSession) {
    s.state == Active && s.activePages < c.maxPagesPerSession
  }

  ghost predicate AnyOpen(c: PoolConfig, ss: seq<PoolSession>) {
    exists i :: 0 <= i < |ss| && Open(c, ss[i])
  }

  /** An open session with the fewest pages, the first of them in the map. */
  ghost predicate LeastLoaded(c: PoolConfig, ss: seq<PoolSession>, id: nat) {
    exists b :: 0 <= b < |ss| && ss[b].id == id && Open(c, ss[b]) && Least(c, ss, b)
  }

  ghost predicate Least(c: PoolConfig, ss: seq<PoolSession>, b: nat)
    requires b < |ss|
  {
    && (forall j :: 0 <= j < |ss| && Open(c, ss[j]) ==> ss[b].activePages <= ss[j].activePages)
    && (forall j :: 0 <= j < b && Open(c, ss[j]) ==> ss[b].activePages < ss[j].activePages)
  }

  lemma FirstOfTheLeast(c: PoolConfig, ss: seq<PoolSession>)
    ensures var b := FindAvailable(c, ss);
            && (b < |ss| <==> AnyOpen(c, ss))
            && (b < |ss| ==> LeastLoaded(c, ss, ss[b].id) && Least(c, ss, b))
  {
    var b := FindAvailable(c, ss);
    if b < |ss| {
      assert Usable(c, ss[b]);
      FirstOne(c, ss);
      assert Least(c, ss, b);
    }
  }

  lemma {:induction false} FirstOne(c: PoolConfig, ss: seq<PoolSession>)
    ensures var b := FindAvailable(c, ss);
            b < |ss| ==> forall j :: 0 <= j < b && Usable(c, ss[j]) ==> ss[b].activePages < ss[j].activePages
  {
    if ss != [] {
      var front := ss[..|ss| - 1];
      FirstOne(c, front);
      assert forall j :: 0 <= j < |front| ==> front[j] == ss[j];
    }
  }

  /** The head of the line takes the least loaded open session; with none it waits for the one being
      created, or creates one while there may be more, or else queues. */
  lemma BeginMeaning(c: PoolConfig, p: Pool, now: int)
    requires p.acquisition == Idle && 0 < p.pending
    ensures var q := Step(c, p, Begin(now));
            && q.pending == p.pending - 1 && q.handles == p.handles && q.releasing == p.releasing
            && (if AnyOpen(c, p.sessions) then
                  && q.acquisition.Opening? && LeastLoaded(c, p.sessions, q.acquisition.sessionId)
                  && q.sessions == p.sessions && q.waiting == p.waiting
                else if p.creatingSession then
                  q.acquisition == Polling(0) && q.sessions == p.sessions && q.waiting == p.waiting
                else Otherwise(c, p, q, now))
  {
    FirstOfTheLeast(c, p.sessions);
  }

  /** No session has room and none is on its way. */
  predicate Otherwise(c: PoolConfig, p: Pool, q: Pool, now: int) {
    if CountByState(p.sessions, Active) + CountByState(p.sessions, Starting) < c.maxSessions then
      && q.acquisition == Creating(p.nextId, Pending) && q.creatingSession && q.waiting == p.waiting
      && q.sessions == p.sessions + [PoolSession(p.nextId, Starting, 0, 0, now, now)]
    else
      && q.acquisition == WaitingSlot(p.nextId) && q.waiting == p.waiting + [p.nextId] && p.nextId < q.nextId
      && q.sessions == p.sessions
  }

  /** It looks twenty times before it goes on without the session being created. */
  lemma PollMeaning(c: PoolConfig, p: Pool, now: int)
    requires p.acquisition.Polling?
    ensures var q := Step(c, p, PollTick(now));
            && q.handles == p.handles && q.pending == p.pending
            && (if AnyOpen(c, p.sessions) then
                  && q.acquisition.Opening? && LeastLoaded(c, p.sessions, q.acquisition.sessionId)
                  && q.sessions == p.sessions && q.waiting == p.waiting
                else if p.acquisition.tries < 19 then
                  && q.acquisition == Polling(p.acquisition.tries + 1)
                  && q.sessions == p.sessions && q.waiting == p.waiting
                else Otherwise(c, p, q, now))
  {
    FirstOfTheLeast(c, p.sessions);
  }

  /** A waiter that goes on takes the least loaded open session if it was told of room and there
      still is some; otherwise the acquisition is over. */
  lemma ResumeMeaning(c: PoolConfig, p: Pool, now: int)
    requires p.acquisition.Woken?
    ensures var q := Step(c, p, Resume(now));
            && q == p.(acquisition := q.acquisition)
            && (if p.acquisition.granted && AnyOpen(c, p.sessions) then
                  q.acquisition.Opening? && LeastLoaded(c, p.sessions, q.acquisition.sessionId)
                else q.acquisition == Idle)
  {
    FirstOfTheLeast(c, p.sessions);
  }

  ghost predicate Answered(c: PoolConfig, p: Pool, q: Pool) {
    q.acquisition == p.acquisition || (q.acquisition == Woken(true) && AnyOpen(c, q.sessions))
  }

  lemma DequeuedAnswers(c: PoolConfig, p: Pool)
    ensures Answered(c, p, Dequeued(c, p))
  {
    FirstOfTheLeast(c, p.sessions);
  }

  lemma {:induction false} PassAnswers(c: PoolConfig, p: Pool, ids: seq<nat>, hs: seq<PageHandle>, now: int)
    requires p.acquisition.WaitingSlot?
    ensures MaintainedAll(c, p, ids, now).acquisition == p.acquisition
    ensures ForceReleased(c, p, hs, now).acquisition == p.acquisition
  {
    if ids != [] {
      PassAnswers(c, p, ids[..|ids| - 1], hs, now);
    } else if hs != [] {
      PassAnswers(c, p, ids, hs[..|hs| - 1], now);
    }
  }

  /** A waiter is told that there is room only when there is, and that there is none only by its
      own timer. */
  lemma WakeMeaning(c: PoolConfig, p: Pool, e: Event)
    requires QueueInv(p) && p.acquisition.WaitingSlot?
    ensures var q := Step(c, p, e);
            if e == SlotTimer(p.acquisition.ticket) then q.acquisition == Woken(false) && q.waiting == []
            else Answered(c, p, q)
  {
    match e
    case Connected(id) => WakeOnConnect(c, p, id);
    case Disconnected(id) => WakeOnLoss(c, p, id);
    case ContextClosed(k, now) => WakeOnRelease(c, p, k, now);
    case BrowserClosed => DequeuedAnswers(c, p.(closing := if p.closing == 0 then 0 else p.closing - 1));
    case Maintenance(now) =>
      var q := MaintainedAll(c, p, Ids(p.sessions), now);
      PassAnswers(c, p, Ids(p.sessions), [], now);
      PassAnswers(c, q, [], p.handles, now);
    case _ =>
  }

  lemma WakeOnConnect(c: PoolConfig, p: Pool, id: nat)
    requires p.acquisition.WaitingSlot?
    ensures Answered(c, p, ConnectedTo(c, p, id))
  {
    var i := IndexOf(p.sessions, id);
    if i < |p.sessions| {
      DequeuedAnswers(c, p.(sessions := p.sessions[i := p.sessions[i].(state := Active)]));
    }
  }

  lemma WakeOnLoss(c: PoolConfig, p: Pool, id: nat)
    requires p.acquisition.WaitingSlot?
    ensures Answered(c, p, Lost(c, p, id))
  {
    var i, n, q := IndexOf(p.sessions, id), HandlesOf(p.handles, id), p.(handles := HandlesWithout(p.handles, id));
    if i < |p.sessions| {
      DequeuedAnswers(c, Leave(q, i, Freed(p.sessions[i].(state := Closed), n)));
    } else {
      DequeuedAnswers(c, q);
      if p.detached.Some? {
        DequeuedAnswers(c, q.(detached := Some(Freed(p.detached.value.(state := Closed), n))));
      }
    }
  }

  lemma WakeOnRelease(c: PoolConfig, p: Pool, k: nat, now: int)
    requires p.acquisition.WaitingSlot?
    ensures Answered(c, p, Released(c, p, k, now))
  {
    if k < |p.releasing| {
      var q := p.(releasing := p.releasing[..k] + p.releasing[k + 1..]);
      var i := IndexOf(p.sessions, p.releasing[k]);
      if i < |p.sessions| {
        DequeuedAnswers(c, q.(sessions := p.sessions[i := Freed(p.sessions[i], 1).(lastActivity := now)]));
      }
    }
  }

  // ---------------------------------------------------------------- the session an acquisition holds

  predicate InMap(ss: seq<PoolSession>, id: nat) {
    exists i :: 0 <= i < |ss| && ss[i].id == id
  }

  /** The session the running acquisition holds is in the map or kept aside. */
  ghost predicate HeldKnown(p: Pool) {
    forall id: nat :: Holds(p.acquisition, id) ==>
      InMap(p.sessions, id) || (p.detached.Some? && p.detached.value.id == id)
  }

  lemma StillInMap(ss: seq<PoolSession>, i: nat, t: PoolSession, id: nat)
    requires i < |ss| && t.id == ss[i].id && InMap(ss, id)
    ensures InMap(ss[i := t], id)
    ensures ss[i].id != id ==> InMap(Without(ss, i), id)
  {
    var j :| 0 <= j < |ss| && ss[j].id == id;
    assert ss[i := t][j].id == id;
    if ss[i].id != id {
      assert Without(ss, i)[if j < i then j else j - 1].id == id;
    }
  }

  lemma LeaverKnown(p: Pool, i: nat, last: PoolSession)
    requires HeldKnown(p) && i < |p.sessions| && last.id == p.sessions[i].id
    ensures HeldKnown(Leave(p, i, last))
  {
    var q := Leave(p, i, last);
    forall id: nat | Holds(q.acquisition, id)
      ensures InMap(q.sessions, id) || (q.detached.Some? && q.detached.value.id == id)
    {
      if id != last.id && InMap(p.sessions, id) {
        StillInMap(p.sessions, i, last, id);
      }
    }
  }

  /** The same map but for one record written back, or with sessions added. */
  lemma WrittenBackKnown(p: Pool, i: nat, t: PoolSession)
    requires HeldKnown(p) && i < |p.sessions| && t.id == p.sessions[i].id
    ensures HeldKnown(p.(sessions := p.sessions[i := t]))
  {
    forall id: nat | Holds(p.acquisition, id) && InMap(p.sessions, id) ensures InMap(p.sessions[i := t], id) {
      StillInMap(p.sessions, i, t, id);
    }
  }

  lemma AddedKnown(p: Pool, q: Pool)
    requires HeldKnown(p) && q.detached == p.detached
    requires |p.sessions| <= |q.sessions| && q.sessions[..|p.sessions|] == p.sessions
    requires forall id: nat :: Holds(q.acquisition, id) ==> Holds(p.acquisition, id) || InMap(q.sessions, id)
    ensures HeldKnown(q)
  {
    forall id: nat | Holds(q.acquisition, id) && InMap(p.sessions, id) ensures InMap(q.sessions, id) {
      var j :| 0 <= j < |p.sessions| && p.sessions[j].id == id;
      assert q.sessions[j] == q.sessions[..|p.sessions|][j];
    }
  }

  lemma AcquisitionKnown(c: PoolConfig, p: Pool, e: Event)
    requires HeldKnown(p) && e.Acquiring()
    ensures HeldKnown(Step(c, p, e))
  {
    var q, n := Step(c, p, e), |p.sessions|;
    if e.Opened? || e.OpenFailed? {
      assert q == p || q.acquisition == Idle;
    } else {
      assert q.acquisition.Creating? && !p.acquisition.Creating? ==> q.sessions[n].id == q.acquisition.sessionId;
      AddedKnown(p, q);
    }
  }

  lemma DequeuedKnown(c: PoolConfig, p: Pool)
    requires HeldKnown(p)
    ensures HeldKnown(Dequeued(c, p))
  {
  }

  lemma ConnectedKnown(c: PoolConfig, p: Pool, id: nat)
    requires HeldKnown(p)
    ensures HeldKnown(ConnectedTo(c, p, id))
  {
    var i := IndexOf(p.sessions, id);
    if i < |p.sessions| && p.sessions[i].state == Starting {
      var t := p.sessions[i].(state := Active);
      WrittenBackKnown(p, i, t);
      DequeuedKnown(c, p.(sessions := p.sessions[i := t],
                          acquisition := if p.acquisition == Creating(id, Pending) then Creating(id, Created)
                                         else p.acquisition));
    }
  }

  lemma ConnectFailedKnown(c: PoolConfig, p: Pool, id: nat)
    requires HeldKnown(p) && HoldInv(c, p)
    ensures HeldKnown(ConnectionFailed(p, id))
  {
    var i, q := IndexOf(p.sessions, id), ConnectionFailed(p, id);
    if i < |p.sessions| && p.sessions[i].state == Starting {
      forall x: nat | Holds(q.acquisition, x) && InMap(p.sessions, x) ensures InMap(q.sessions, x) {
        StillInMap(p.sessions, i, p.sessions[i], x);
      }
    }
  }

  lemma LostKnown(c: PoolConfig, p: Pool, id: nat)
    requires HeldKnown(p)
    ensures HeldKnown(Lost(c, p, id))
  {
    var i, n, q := IndexOf(p.sessions, id), HandlesOf(p.handles, id), p.(handles := HandlesWithout(p.handles, id));
    assert HeldKnown(q);
    if i < |p.sessions| {
      var last := Freed(p.sessions[i].(state := Closed), n);
      LeaverKnown(q, i, last);
      DequeuedKnown(c, Leave(q, i, last));
    } else if p.detached.Some? && p.detached.value.id == id {
      DequeuedKnown(c, q.(detached := Some(Freed(p.detached.value.(state := Closed), n))));
    } else {
      DequeuedKnown(c, q);
    }
  }

  lemma GivenBackKnown(c: PoolConfig, p: Pool, id: nat, now: int)
    requires HeldKnown(p)
    ensures HeldKnown(GivenBack(c, p, id, now))
  {
    var i := IndexOf(p.sessions, id);
    if i < |p.sessions| {
      var s := Freed(p.sessions[i], 1).(lastActivity := now);
      LeaverKnown(p, i, s.(state := Closed));
      WrittenBackKnown(p, i, s);
      DequeuedKnown(c, p.(sessions := p.sessions[i := s]));
    }
  }

  lemma MaintainedKnown(c: PoolConfig, p: Pool, id: nat, now: int)
    requires HeldKnown(p)
    ensures HeldKnown(Maintained(c, p, id, now))
  {
    var i := IndexOf(p.sessions, id);
    if i < |p.sessions| {
      LeaverKnown(p, i, p.sessions[i].(state := Closed));
      WrittenBackKnown(p, i, p.sessions[i].(state := Retiring));
    }
  }

  lemma {:induction false} MaintainedAllKnown(c: PoolConfig, p: Pool, ids: seq<nat>, now: int)
    requires HeldKnown(p)
    ensures HeldKnown(MaintainedAll(c, p, ids, now))
  {
    if ids != [] {
      MaintainedAllKnown(c, p, ids[..|ids| - 1], now);
      MaintainedKnown(c, MaintainedAll(c, p, ids[..|ids| - 1], now), ids[|ids| - 1], now);
    }
  }

  lemma {:induction false} ForceReleasedKnown(c: PoolConfig, p: Pool, hs: seq<PageHandle>, now: int)
    requires HeldKnown(p)
    ensures HeldKnown(ForceReleased(c, p, hs, now))
  {
    if hs != [] {
      ForceReleasedKnown(c, p, hs[..|hs| - 1], now);
    }
  }

  lemma HeldStaysKnown(c: PoolConfig, p: Pool, e: Event)
    requires HeldKnown(p) && HoldInv(c, p)
    ensures HeldKnown(Step(c, p, e))
  {
    match e
    case Connected(id) => ConnectedKnown(c, p, id);
    case ConnectFailed(id) => ConnectFailedKnown(c, p, id);
    case Disconnected(id) => LostKnown(c, p, id);
    case ReleasePage(h) =>
    case ContextClosed(k, now) =>
      if k < |p.releasing| {
        GivenBackKnown(c, p.(releasing := p.releasing[..k] + p.releasing[k + 1..]), p.releasing[k], now);
      }
    case BrowserClosed => DequeuedKnown(c, p.(closing := if p.closing == 0 then 0 else p.closing - 1));
    case SlotTimer(ticket) =>
    case OneShot(now) =>
    case Maintenance(now) =>
      MaintainedAllKnown(c, p, Ids(p.sessions), now);
      ForceReleasedKnown(c, MaintainedAll(c, p, Ids(p.sessions), now), p.handles, now);
    case _ => AcquisitionKnown(c, p, e);
  }

  lemma {:induction false} RunKnown(c: PoolConfig, p: Pool, es: seq<Event>)
    requires ValidConfig(c) && Inv(c, p) && HeldKnown(p)
    ensures HeldKnown(Run(c, p, es))
  {
    if es != [] {
      RunKnown(c, p, es[..|es| - 1]);
      RunKeeps(c, p, es[..|es| - 1]);
      HeldStaysKnown(c, Run(c, p, es[..|es| - 1]), es[|es| - 1]);
    }
  }

  /** Over every run from `start` the session a page is being opened on is in the map, or it has left
      the map and is kept aside; either way it has room for the page. */
  lemma OpeningHasRoom(c: PoolConfig, es: seq<Event>, start: int)
    requires ValidConfig(c)
    ensures var p := Run(c, Warm(EMPTY, c.minSessions, start), es);
            p.acquisition.Opening? ==>
              || (exists s :: s in p.sessions && s.id == p.acquisition.sessionId && HasRoom(c, s))
              || (p.detached.Some? && p.detached.value.id == p.acquisition.sessionId && HasRoom(c, p.detached.value))
  {
    var w := Warm(EMPTY, c.minSessions, start);
    var p := Run(c, w, es);
    WarmKeeps(c, c.minSessions, start);
    assert w.acquisition == Idle by { WarmIdle(c.minSessions, start); }
    RunKnown(c, w, es);
    RunKeeps(c, w, es);
    if p.acquisition.Opening? && InMap(p.sessions, p.acquisition.sessionId) {
      var i :| 0 <= i < |p.sessions| && p.sessions[i].id == p.acquisition.sessionId;
      assert Holds(p.acquisition, p.sessions[i].id) && p.sessions[i] in p.sessions;
    } else if p.acquisition.Opening? {
      assert Holds(p.acquisition, p.acquisition.sessionId);
    }
  }

  lemma {:induction false} WarmIdle(n: nat, now: int)
    ensures Warm(EMPTY, n, now).acquisition == Idle
  {
    if n != 0 {
      WarmIdle(n - 1, now);
    }
  }

  // ---------------------------------------------------------------- browsers that come and go

  /** A browser that connects makes its session active; one that does not takes it away; the
      acquisition that created it is told. */
  lemma ConnectMeaning(c: PoolConfig, p: Pool, i: nat)
    requires DistinctSessions(p.sessions) && i < |p.sessions| && p.sessions[i].state == Starting
    ensures var q, id := Step(c, p, Connected(p.sessions[i].id)), p.sessions[i].id;
            && q.sessions == p.sessions[i := p.sessions[i].(state := Active)]
            && !q.creatingSession && q.handles == p.handles && q.releasing == p.releasing
            && (p.acquisition == Creating(id, Pending) && p.waiting == [] ==> q.acquisition == Creating(id, Created))
    ensures var q, id := Step(c, p, ConnectFailed(p.sessions[i].id)), p.sessions[i].id;
            && q.sessions == p.sessions[..i] + p.sessions[i + 1..]
            && !q.creatingSession && q.handles == p.handles && q.releasing == p.releasing
            && q.acquisition == (if p.acquisition == Creating(id, Pending) then Creating(id, Failed) else p.acquisition)
  {
    FoundAt(p.sessions, i);
  }

  /** A browser that disconnects takes its session and its handles with it, and nothing else. */
  lemma DisconnectMeaning(c: PoolConfig, p: Pool, i: nat)
    requires DistinctSessions(p.sessions) && KnownIds(p) && i < |p.sessions| && p.sessions[i].state != Starting
    ensures var q := Step(c, p, Disconnected(p.sessions[i].id));
            && q.sessions == p.sessions[..i] + p.sessions[i + 1..] && q.releasing == p.releasing
            && (forall h :: h in q.handles <==> h in p.handles && h.sessionId != p.sessions[i].id)
  {
    FoundAt(p.sessions, i);
    LostSessions(c, p, p.sessions[i].id);
    WithoutMembersOf(p.handles, p.sessions[i].id);
  }

  /** A one-shot page is a live handle under a new name, of no session of the map; a browser that has
      closed is one fewer to wait for. */
  lemma OneShotMeaning(c: PoolConfig, p: Pool, now: int)
    requires KnownIds(p) && MapInv(c, p)
    ensures var q := Step(c, p, OneShot(now));
            && q.sessions == p.sessions && q.releasing == p.releasing && q.acquisition == p.acquisition
            && |q.handles| == |p.handles| + 1 && q.handles[..|p.handles|] == p.handles
            && var h := q.handles[|p.handles|];
               && h.acquiredAt == now && (forall g :: g in p.handles ==> g.id != h.id)
               && forall s :: s in q.sessions ==> s.id != h.sessionId
    ensures Step(c, p, BrowserClosed).closing == if p.closing == 0 then 0 else p.closing - 1
  {
  }

  // ---------------------------------------------------------------- a maintenance pass

  /** A session that a pass may take out of service. */
  predicate Due(c: PoolConfig, s: PoolSession, now: int) {
    || (s.state == Active && c.retireAfterMs <= now - s.createdAt)
    || (s.state == Active && s.activePages == 0 && c.idleTimeoutMs <= now - s.lastActivity)
    || (s.state == Retiring && s.activePages == 0)
  }

  /** What a look leaves is as it was, or retires with its pages because its time is over. */
  ghost predicate Left(c: PoolConfig, before: seq<PoolSession>, after: seq<PoolSession>, now: int) {
    && (forall s :: s in before && !Due(c, s, now) ==> s in after)
    && (forall s :: s in after && s !in before ==>
          && s.state == Retiring && s.activePages != 0 && c.retireAfterMs <= now - s.createdAt
          && s.(state := Active) in before)
  }

  lemma LookLeaves(c: PoolConfig, p: Pool, id: nat, now: int)
    ensures Left(c, p.sessions, Maintained(c, p, id, now).sessions, now)
  {
    var q, i := Maintained(c, p, id, now), IndexOf(p.sessions, id);
    if i < |p.sessions| {
      var s := p.sessions[i];
      StaysOrGoes(p.sessions, i, s.(state := Retiring));
      assert s.(state := Retiring).(state := Active) == s.(state := Active);
    }
  }

  lemma StaysOrGoes(ss: seq<PoolSession>, i: nat, t: PoolSession)
    requires i < |ss|
    ensures forall s :: s in ss && s != ss[i] ==> s in Without(ss, i) && s in ss[i := t]
    ensures forall s :: s in Without(ss, i) ==> s in ss
    ensures forall s :: s in ss[i := t] ==> s in ss || s == t
  {
    forall s | s in ss && s != ss[i] ensures s in Without(ss, i) && s in ss[i := t] {
      var j :| 0 <= j < |ss| && ss[j] == s;
      assert Without(ss, i)[if j < i then j else j - 1] == s && ss[i := t][j] == s;
    }
  }

  lemma {:induction false} PassLeaves(c: PoolConfig, p: Pool, ids: seq<nat>, now: int)
    ensures Left(c, p.sessions, MaintainedAll(c, p, ids, now).sessions, now)
  {
    if ids != [] {
      PassLeaves(c, p, ids[..|ids| - 1], now);
      LookLeaves(c, MaintainedAll(c, p, ids[..|ids| - 1], now), ids[|ids| - 1], now);
    }
  }

  predicate IdleTooLong(c: PoolConfig, s: PoolSession, now: int) {
    s.state == Active && s.activePages == 0 && c.idleTimeoutMs <= now - s.lastActivity
  }

  /** Among those looked at no session is drained, and one is idle only if no more than
      minSessions are active. */
  ghost predicate Tidy(c: PoolConfig, ss: seq<PoolSession>, looked: seq<nat>, now: int) {
    forall s :: s in ss && s.id in looked ==> TidyOne(c, ss, s, now)
  }

  predicate TidyOne(c: PoolConfig, ss: seq<PoolSession>, s: PoolSession, now: int) {
    && !(s.state == Retiring && s.activePages == 0)
    && (IdleTooLong(c, s, now) ==> CountByState(ss, Active) <= c.minSessions)
  }

  /** A look leaves the map, takes its session out, or retires it with its pages. */
  lemma LookAt(c: PoolConfig, p: Pool, i: nat, now: int)
    requires DistinctSessions(p.sessions) && i < |p.sessions|
    ensures var q, s := Maintained(c, p, p.sessions[i].id, now), p.sessions[i];
            || q.sessions == Without(p.sessions, i)
            || (s.state == Active && s.activePages != 0 && q.sessions == p.sessions[i := s.(state := Retiring)])
            || (q.sessions == p.sessions && TidyOne(c, p.sessions, s, now))
  {
    FoundAt(p.sessions, i);
  }

  lemma MaintainedActive(c: PoolConfig, p: Pool, id: nat, now: int)
    requires DistinctSessions(p.sessions)
    ensures var q := Maintained(c, p, id, now);
            && CountByState(q.sessions, Active) <= CountByState(p.sessions, Active)
            && (forall s :: s in q.sessions && s.id != id ==> s in p.sessions)
            && Tidy(c, q.sessions, [id], now)
  {
    var i := IndexOf(p.sessions, id);
    if i < |p.sessions| {
      var t := p.sessions[i].(state := Retiring);
      LookAt(c, p, i, now);
      CountWithout(p.sessions, i, Active);
      CountUpdate(p.sessions, i, t, Active);
      WithoutMembers(p.sessions, i);
      OnlyThis(p.sessions, i, t);
    }
  }

  lemma OnlyThis(ss: seq<PoolSession>, i: nat, t: PoolSession)
    requires DistinctSessions(ss) && i < |ss| && t.id == ss[i].id
    ensures forall s :: s in ss && s.id == ss[i].id ==> s == ss[i]
    ensures forall s :: s in ss[i := t] && s.id == ss[i].id ==> s == t
    ensures forall s :: s in ss[i := t] && s != t ==> s in ss
  {
  }

  lemma TidyTwice(c: PoolConfig, a: seq<PoolSession>, b: seq<PoolSession>, looked: seq<nat>, id: nat, now: int)
    requires Tidy(c, b, looked, now) && Tidy(c, a, [id], now)
    requires CountByState(a, Active) <= CountByState(b, Active)
    requires forall s :: s in a && s.id != id ==> s in b
    ensures Tidy(c, a, looked + [id], now)
  {
    forall s | s in a && s.id in looked + [id] ensures TidyOne(c, a, s, now) {
      if s.id != id {
        assert TidyOne(c, b, s, now);
      } else {
        assert s.id in [id];
      }
    }
  }

  lemma TidyStep(c: PoolConfig, q: Pool, looked: seq<nat>, id: nat, now: int)
    requires DistinctSessions(q.sessions) && Tidy(c, q.sessions, looked, now)
    ensures Tidy(c, Maintained(c, q, id, now).sessions, looked + [id], now)
  {
    MaintainedActive(c, q, id, now);
    TidyTwice(c, Maintained(c, q, id, now).sessions, q.sessions, looked, id, now);
  }

  lemma DistinctAfter(c: PoolConfig, p: Pool, ids: seq<nat>, now: int)
    requires Inv(c, p)
    ensures DistinctSessions(MaintainedAll(c, p, ids, now).sessions)
  {
    MaintainedAllKeeps(c, p, ids, now);
  }

  lemma {:induction false} PassTidies(c: PoolConfig, p: Pool, ids: seq<nat>, now: int)
    requires Inv(c, p)
    ensures Tidy(c, MaintainedAll(c, p, ids, now).sessions, ids, now)
  {
    if ids != [] {
      var earlier, id := ids[..|ids| - 1], ids[|ids| - 1];
      PassTidies(c, p, earlier, now);
      DistinctAfter(c, p, earlier, now);
      TidyStep(c, MaintainedAll(c, p, earlier, now), earlier, id, now);
      assert ids == earlier + [id];
    }
  }

  /** Exactly the handles among `hs` held for twice the page timeout are dropped. */
  ghost predicate StaleDropped(c: PoolConfig, before: seq<PageHandle>, hs: seq<PageHandle>, after: seq<PageHandle>,
                               now: int)
  {
    forall h :: h in after <==> h in before && !(h in hs && 2 * c.pageTimeoutMs <= now - h.acquiredAt)
  }

  lemma {:induction false} ForceReleasedHandles(c: PoolConfig, p: Pool, n: nat, now: int)
    requires KnownIds(p) && n <= |p.handles|
    ensures var q := ForceReleased(c, p, p.handles[..n], now);
            KnownIds(q) && StaleDropped(c, p.handles, p.handles[..n], q.handles, now)
  {
    if n != 0 {
      var h := p.handles[n - 1];
      var q := ForceReleased(c, p, p.handles[..n - 1], now);
      ForceReleasedHandles(c, p, n - 1, now);
      assert p.handles[..n][..n - 1] == p.handles[..n - 1];
      assert p.handles[..n] == p.handles[..n - 1] + [h];
      assert forall g :: g in p.handles && g.id == h.id ==> g == h;
      if StaleHandle(c, h, now) {
        DropMembers(q.handles, h.id);
        HandleKnown(p, h);
        DroppedKnown(q, h);
      }
    }
  }

  ghost predicate PassedOver(c: PoolConfig, p: Pool, q: Pool, now: int) {
    && Left(c, p.sessions, q.sessions, now)
    && Tidy(c, q.sessions, Ids(p.sessions), now)
    && StaleDropped(c, p.handles, p.handles, q.handles, now)
  }

  /** A maintenance pass takes only sessions out of service that are over age, idle or drained;
      of all that were there it leaves none drained, and one idle only if no more than minSessions
      are active; it releases by force exactly the handles held for twice the page timeout. */
  lemma MaintenanceMeaning(c: PoolConfig, p: Pool, now: int)
    requires ValidConfig(c) && Inv(c, p) && KnownIds(p)
    ensures PassedOver(c, p, Step(c, p, Maintenance(now)), now)
  {
    assert Step(c, p, Maintenance(now)) == MaintenancePass(c, p, now);
    PassSession(c, p, now);
    PassStale(c, p, now);
  }

  lemma PassSession(c: PoolConfig, p: Pool, now: int)
    requires ValidConfig(c) && Inv(c, p)
    ensures Left(c, p.sessions, MaintenancePass(c, p, now).sessions, now)
    ensures Tidy(c, MaintenancePass(c, p, now).sessions, Ids(p.sessions), now)
  {
    var ids := Ids(p.sessions);
    PassLeaves(c, p, ids, now);
    PassTidies(c, p, ids, now);
    ForceReleaseKeepsSessions(c, MaintainedAll(c, p, ids, now), p.handles, now);
  }

  lemma PassStale(c: PoolConfig, p: Pool, now: int)
    requires KnownIds(p)
    ensures StaleDropped(c, p.handles, p.handles, MaintenancePass(c, p, now).handles, now)
  {
    var q := MaintainedAll(c, p, Ids(p.sessions), now);
    PassHandles(c, p, Ids(p.sessions), now);
    assert KnownIds(q);
    ForceReleasedHandles(c, q, |q.handles|, now);
    assert q.handles[..|q.handles|] == p.handles;
  }

  lemma {:induction false} PassHandles(c: PoolConfig, p: Pool, ids: seq<nat>, now: int)
    ensures var q := MaintainedAll(c, p, ids, now);
            q.handles == p.handles && q.releasing == p.releasing && q.nextId == p.nextId
  {
    if ids != [] {
      PassHandles(c, p, ids[..|ids| - 1], now);
    }
  }

  // ---------------------------------------------------------------- the tally

  function InFlight(p: Pool, id: nat): nat {
    multiset(p.releasing)[id]
  }

  /** Every session's pages are its live handles and its releases in flight. */
  ghost predicate Tally(p: Pool) {
    forall i :: 0 <= i < |p.sessions| ==> TallyOf(p, p.sessions[i])
  }

  predicate TallyOf(p: Pool, s: PoolSession) {
    s.activePages == HandlesOf(p.handles, s.id) + InFlight(p, s.id)
  }

  /** No identifier is given out twice. */
  ghost predicate KnownIds(p: Pool) {
    && (forall i :: 0 <= i < |p.handles| ==> p.handles[i].id < p.nextId && p.handles[i].sessionId < p.nextId)
    && (forall i, j :: 0 <= i < j < |p.handles| ==> p.handles[i].id != p.handles[j].id)
    && (forall i :: 0 <= i < |p.releasing| ==> p.releasing[i] < p.nextId)
  }

  ghost predicate TallyInv(c: PoolConfig, p: Pool) {
    Inv(c, p) && KnownIds(p) && Tally(p)
  }

  /** A first release: of a live handle, or of one that went with its session. */
  ghost predicate FirstRelease(p: Pool, h: PageHandle) {
    h in p.handles || (h.sessionId < p.nextId && Gone(p, h))
  }

  /** Neither the handle nor its session is there any more. */
  ghost predicate Gone(p: Pool, h: PageHandle) {
    (forall g :: g in p.handles ==> g.id != h.id) && (forall s :: s in p.sessions ==> s.id != h.sessionId)
  }

  /** Nobody releases a handle that is released already. */
  ghost predicate NoneTwice(c: PoolConfig, p: Pool, es: seq<Event>) {
    es == [] ||
    (NoneTwice(c, p, es[..|es| - 1]) &&
     (es[|es| - 1].ReleasePage? ==> FirstRelease(Run(c, p, es[..|es| - 1]), es[|es| - 1].handle)))
  }

  lemma {:induction false} NoHandlesOf(hs: seq<PageHandle>, id: nat)
    requires forall i :: 0 <= i < |hs| ==> hs[i].sessionId != id
    ensures HandlesOf(hs, id) == 0
  {
    if hs != [] {
      NoHandlesOf(hs[..|hs| - 1], id);
    }
  }

  lemma NoneInFlight(p: Pool, id: nat)
    requires forall i :: 0 <= i < |p.releasing| ==> p.releasing[i] != id
    ensures InFlight(p, id) == 0
  {
    if id in multiset(p.releasing) {
      assert id in p.releasing;
    }
  }

  /** A new identifier has neither pages nor releases. */
  lemma FreshTally(p: Pool, s: PoolSession)
    requires KnownIds(p) && p.nextId <= s.id && s.activePages == 0
    ensures TallyOf(p, s)
  {
    NoHandlesOf(p.handles, s.id);
    NoneInFlight(p, s.id);
  }

  lemma HandlesAppend(hs: seq<PageHandle>, h: PageHandle, id: nat)
    ensures HandlesOf(hs + [h], id) == HandlesOf(hs, id) + if h.sessionId == id then 1 else 0
  {
    assert (hs + [h])[..|hs|] == hs;
  }

  /** Dropping a handle that is there takes exactly one off its session. */
  lemma {:induction false} HandlesDrop(hs: seq<PageHandle>, h: PageHandle, id: nat)
    requires forall i, j :: 0 <= i < j < |hs| ==> hs[i].id != hs[j].id
    requires h in hs || forall i :: 0 <= i < |hs| ==> hs[i].id != h.id
    ensures HandlesOf(DropHandle(hs, h.id), id) == HandlesOf(hs, id) - if h in hs && h.sessionId == id then 1 else 0
  {
    if hs != [] {
      var front, last := hs[..|hs| - 1], hs[|hs| - 1];
      assert hs == front + [last];
      assert h in hs <==> h in front || h == last;
      assert forall i :: 0 <= i < |front| ==> front[i].id != last.id;
      var left := DropHandle(front, h.id);
      HandlesDrop(front, h, id);
      HandlesAppend(left, last, id);
      assert left + [] == left;
    }
  }

  /** Dropping keeps the others, in order and as they were. */
  lemma {:induction false} DropMembers(hs: seq<PageHandle>, id: nat)
    requires forall i, j :: 0 <= i < j < |hs| ==> hs[i].id != hs[j].id
    ensures var ds := DropHandle(hs, id);
            && (forall h :: h in ds <==> h in hs && h.id != id)
            && (forall i, j :: 0 <= i < j < |ds| ==> ds[i].id != ds[j].id)
  {
    if hs != [] {
      var front, last := hs[..|hs| - 1], hs[|hs| - 1];
      assert hs == front + [last];
      DropMembers(front, id);
      assert forall h :: h in front ==> h.id != last.id;
    }
  }

  lemma {:induction false} WithoutMembersOf(hs: seq<PageHandle>, id: nat)
    requires forall i, j :: 0 <= i < j < |hs| ==> hs[i].id != hs[j].id
    ensures var ds := HandlesWithout(hs, id);
            && (forall h :: h in ds <==> h in hs && h.sessionId != id)
            && (forall i, j :: 0 <= i < j < |ds| ==> ds[i].id != ds[j].id)
  {
    if hs != [] {
      var front, last := hs[..|hs| - 1], hs[|hs| - 1];
      assert hs == front + [last];
      WithoutMembersOf(front, id);
      assert forall h :: h in front ==> h.id != last.id;
    }
  }

  lemma {:induction false} HandlesWithoutOther(hs: seq<PageHandle>, gone: nat, id: nat)
    requires gone != id
    ensures HandlesOf(HandlesWithout(hs, gone), id) == HandlesOf(hs, id)
  {
    if hs != [] {
      var left := HandlesWithout(hs[..|hs| - 1], gone);
      HandlesWithoutOther(hs[..|hs| - 1], gone, id);
      HandlesAppend(left, hs[|hs| - 1], id);
      assert left + [] == left;
    }
  }

  predicate Had(ss: seq<PoolSession>, id: nat, pages: nat) {
    exists i :: 0 <= i < |ss| && ss[i].id == id && ss[i].activePages == pages
  }

  /** The tally speaks of the sessions, the handles and the releases alone. */
  lemma TallyTransfer(p: Pool, q: Pool)
    requires Tally(p) && KnownIds(p) && p.nextId <= q.nextId
    requires q.handles == p.handles && q.releasing == p.releasing
    requires forall i :: 0 <= i < |q.sessions| ==>
               Had(p.sessions, q.sessions[i].id, q.sessions[i].activePages) ||
               (p.nextId <= q.sessions[i].id && q.sessions[i].activePages == 0)
    ensures Tally(q) && KnownIds(q)
  {
    forall i | 0 <= i < |q.sessions| ensures TallyOf(q, q.sessions[i]) {
      var s := q.sessions[i];
      if p.nextId <= s.id && s.activePages == 0 {
        FreshTally(p, s);
      } else {
        var j :| 0 <= j < |p.sessions| && p.sessions[j].id == s.id && p.sessions[j].activePages == s.activePages;
        assert TallyOf(p, p.sessions[j]);
      }
    }
  }

  lemma CapacityTally(c: PoolConfig, p: Pool, now: int)
    requires Tally(p) && KnownIds(p)
    ensures Tally(EnsuredCapacity(c, p, now)) && KnownIds(EnsuredCapacity(c, p, now))
  {
    CapacityGrows(c, p, now);
    TallyTransfer(p, EnsuredCapacity(c, p, now));
  }

  lemma OpenedTally(c: PoolConfig, p: Pool, now: int)
    requires ValidConfig(c) && TallyInv(c, p)
    ensures Tally(PageOpened(c, p, now)) && KnownIds(PageOpened(c, p, now))
  {
    if p.acquisition.Opening? {
      var id := p.acquisition.sessionId;
      var i := IndexOf(p.sessions, id);
      var q := HandedOut(p, id, now);
      HandedOutKnown(p, id, now);
      var r := if i == |q.sessions| then q else Counted(c, q, i, now);
      HandedTally(c, p, id, now);
      CapacityTally(c, r, now);
    }
  }

  lemma HandedTally(c: PoolConfig, p: Pool, id: nat, now: int)
    requires 0 < c.maxPagesPerSession && DistinctSessions(p.sessions) && Tally(p) && KnownIds(HandedOut(p, id, now))
    ensures var q, i := HandedOut(p, id, now), IndexOf(p.sessions, id);
            var r := if i == |q.sessions| then q else Counted(c, q, i, now);
            Tally(r) && KnownIds(r)
  {
    var q, i := HandedOut(p, id, now), IndexOf(p.sessions, id);
    var r := if i == |q.sessions| then q else Counted(c, q, i, now);
    if i < |p.sessions| {
      CountedAt(c, q, i, now);
    }
    forall j | 0 <= j < |r.sessions| ensures TallyOf(r, r.sessions[j]) {
      assert j == i || p.sessions[j].id != id;
      OneMoreAt(p, r, id, now, p.sessions[j], r.sessions[j]);
    }
  }

  lemma CountedAt(c: PoolConfig, p: Pool, i: nat, now: int)
    requires i < |p.sessions| && 0 < c.maxPagesPerSession
    ensures var r := Counted(c, p, i, now);
            && |r.sessions| == |p.sessions| && r.handles == p.handles && r.releasing == p.releasing
            && r.nextId == p.nextId
            && r.sessions[i].activePages == p.sessions[i].activePages + 1 && r.sessions[i].id == p.sessions[i].id
            && forall j :: 0 <= j < |p.sessions| && j != i ==> r.sessions[j] == p.sessions[j]
  {
  }

  /** The page handed out is one more on its own session. */
  lemma OneMoreAt(p: Pool, r: Pool, id: nat, now: int, s: PoolSession, t: PoolSession)
    requires Tally(p) && s in p.sessions && t.id == s.id
    requires r.handles == p.handles + [PageHandle(p.nextId, id, now)] && r.releasing == p.releasing
    requires t.activePages == s.activePages + if s.id == id then 1 else 0
    ensures TallyOf(r, t)
  {
    var j :| 0 <= j < |p.sessions| && p.sessions[j] == s;
    assert TallyOf(p, p.sessions[j]);
    HandlesAppend(p.handles, PageHandle(p.nextId, id, now), s.id);
  }

  lemma HandedOutKnown(p: Pool, id: nat, now: int)
    requires KnownIds(p) && id < p.nextId
    ensures KnownIds(HandedOut(p, id, now))
  {
  }

  /** A release begun keeps the tally exactly if it is a first one. */
  lemma ReleaseKeepsTallyIff(c: PoolConfig, p: Pool, h: PageHandle)
    requires TallyInv(c, p) && h.sessionId < p.nextId
    requires h in p.handles || forall g :: g in p.handles ==> g.id != h.id
    ensures Tally(Step(c, p, ReleasePage(h))) <==> FirstRelease(p, h)
    ensures KnownIds(Step(c, p, ReleasePage(h)))
  {
    var q := Step(c, p, ReleasePage(h));
    DroppedKnown(p, h);
    forall i | 0 <= i < |q.sessions|
      ensures TallyOf(q, q.sessions[i]) <==> (h in p.handles || h.sessionId != q.sessions[i].id)
    {
      ReleaseAt(c, p, h, i);
    }
    if h !in p.handles && !Gone(p, h) {
      var s :| s in p.sessions && s.id == h.sessionId;
      var i :| 0 <= i < |q.sessions| && q.sessions[i] == s;
      assert !TallyOf(q, q.sessions[i]);
    } else if h !in p.handles {
      assert forall i :: 0 <= i < |q.sessions| ==> q.sessions[i] in p.sessions;
    }
  }

  lemma ReleaseAt(c: PoolConfig, p: Pool, h: PageHandle, i: nat)
    requires Tally(p) && KnownIds(p) && i < |p.sessions|
    requires h in p.handles || forall g :: g in p.handles ==> g.id != h.id
    ensures var q := Step(c, p, ReleasePage(h));
            TallyOf(q, p.sessions[i]) <==> (h in p.handles || h.sessionId != p.sessions[i].id)
  {
    assert TallyOf(p, p.sessions[i]);
    HandlesDrop(p.handles, h, p.sessions[i].id);
  }

  lemma DroppedKnown(p: Pool, h: PageHandle)
    requires KnownIds(p) && h.sessionId < p.nextId
    ensures KnownIds(Releasing(p, h))
  {
    var q := Releasing(p, h);
    DropMembers(p.handles, h.id);
    forall i | 0 <= i < |q.handles| ensures q.handles[i].id < q.nextId && q.handles[i].sessionId < q.nextId {
      assert q.handles[i] in p.handles;
    }
  }

  /** What was given back was in flight. */
  lemma OffTally(p: Pool, q: Pool, s: PoolSession, t: PoolSession, id: nat)
    requires TallyOf(p, s) && t.id == s.id && q.handles == p.handles
    requires multiset(p.releasing) == multiset(q.releasing) + multiset{id}
    requires t.activePages == if s.id == id && s.activePages != 0 then s.activePages - 1 else s.activePages
    ensures TallyOf(q, t)
  {
  }

  lemma ReleasedTally(c: PoolConfig, p: Pool, k: nat, now: int)
    requires TallyInv(c, p)
    ensures Tally(Step(c, p, ContextClosed(k, now))) && KnownIds(Step(c, p, ContextClosed(k, now)))
  {
    if k < |p.releasing| {
      var id, q := p.releasing[k], Step(c, p, ContextClosed(k, now));
      var i := IndexOf(p.sessions, id);
      ReleasedIds(c, p, k, now);
      if i < |p.sessions| {
        ReleaseMeaning(c, p, k, now, i);
        GivenBackTally(c, p, q, i, id);
      } else {
        LateRelease(c, p, k, now);
        forall j | 0 <= j < |q.sessions| ensures TallyOf(q, q.sessions[j]) {
          OffTally(p, q, p.sessions[j], q.sessions[j], id);
        }
      }
    }
  }

  lemma ReleasedIds(c: PoolConfig, p: Pool, k: nat, now: int)
    requires KnownIds(p) && k < |p.releasing|
    ensures var q := Step(c, p, ContextClosed(k, now));
            && KnownIds(q) && q.handles == p.handles
            && multiset(p.releasing) == multiset(q.releasing) + multiset{p.releasing[k]}
  {
    var q := Step(c, p, ContextClosed(k, now));
    TakenOut(p.releasing, k);
    assert q.releasing == p.releasing[..k] + p.releasing[k + 1..] && q.handles == p.handles && q.nextId == p.nextId;
    forall i | 0 <= i < |q.releasing| ensures q.releasing[i] < q.nextId {
      assert q.releasing[i] in p.releasing;
    }
  }

  lemma GivenBackTally(c: PoolConfig, p: Pool, q: Pool, i: nat, id: nat)
    requires Tally(p) && i < |p.sessions| && p.sessions[i].id == id && q.handles == p.handles
    requires DistinctSessions(p.sessions)
    requires multiset(p.releasing) == multiset(q.releasing) + multiset{id}
    requires q.sessions == p.sessions[..i] + p.sessions[i + 1..] ||
             (|q.sessions| == |p.sessions| && q.sessions == p.sessions[i := q.sessions[i]] && q.sessions[i].id == id &&
              q.sessions[i].activePages ==
              if p.sessions[i].activePages == 0 then 0 else p.sessions[i].activePages - 1)
    ensures Tally(q)
  {
    forall j | 0 <= j < |q.sessions| ensures TallyOf(q, q.sessions[j]) {
      var m := if |q.sessions| < |p.sessions| && i <= j then j + 1 else j;
      assert TallyOf(p, p.sessions[m]);
      OffTally(p, q, p.sessions[m], q.sessions[j], id);
    }
  }

  lemma TakenOut(rs: seq<nat>, k: nat)
    requires k < |rs|
    ensures multiset(rs) == multiset(rs[..k] + rs[k + 1..]) + multiset{rs[k]}
    ensures forall r :: r in rs[..k] + rs[k + 1..] ==> r in rs
  {
    assert rs == rs[..k] + [rs[k]] + rs[k + 1..];
  }

  lemma LostTally(c: PoolConfig, p: Pool, id: nat)
    requires TallyInv(c, p)
    ensures Tally(Lost(c, p, id)) && KnownIds(Lost(c, p, id))
  {
    var i, q := IndexOf(p.sessions, id), Lost(c, p, id);
    if i == |p.sessions| || p.sessions[i].state != Starting {
      assert KnownIds(q) by { WithoutKnown(p, id, q); }
      LostSessions(c, p, id);
      OtherSessionsTally(p, q, id, i);
    }
  }

  lemma OtherSessionsTally(p: Pool, q: Pool, id: nat, i: nat)
    requires Tally(p) && i <= |p.sessions|
    requires q.sessions == if i == |p.sessions| then p.sessions else p.sessions[..i] + p.sessions[i + 1..]
    requires forall j :: 0 <= j < |p.sessions| && j != i ==> p.sessions[j].id != id
    requires q.handles == HandlesWithout(p.handles, id) && q.releasing == p.releasing
    ensures Tally(q)
  {
    forall j | 0 <= j < |q.sessions| ensures TallyOf(q, q.sessions[j]) {
      OtherSessionTally(p, q, id, if i <= j then j + 1 else j);
    }
  }

  lemma OtherSessionTally(p: Pool, q: Pool, id: nat, m: nat)
    requires Tally(p) && m < |p.sessions| && p.sessions[m].id != id
    requires q.handles == HandlesWithout(p.handles, id) && q.releasing == p.releasing
    ensures TallyOf(q, p.sessions[m])
  {
    assert TallyOf(p, p.sessions[m]);
    HandlesWithoutOther(p.handles, id, p.sessions[m].id);
  }

  lemma WithoutKnown(p: Pool, id: nat, q: Pool)
    requires KnownIds(p)
    requires q.handles == HandlesWithout(p.handles, id) && q.releasing == p.releasing && q.nextId == p.nextId
    ensures KnownIds(q)
  {
    WithoutMembersOf(p.handles, id);
    forall k | 0 <= k < |q.handles| ensures q.handles[k].id < q.nextId && q.handles[k].sessionId < q.nextId {
      assert q.handles[k] in p.handles;
    }
  }

  /** A browser lost takes its own session and handles with it, and nothing else. */
  lemma LostSessions(c: PoolConfig, p: Pool, id: nat)
    requires DistinctSessions(p.sessions)
    requires IndexOf(p.sessions, id) == |p.sessions| || p.sessions[IndexOf(p.sessions, id)].state != Starting
    ensures var i, q := IndexOf(p.sessions, id), Lost(c, p, id);
            && q.handles == HandlesWithout(p.handles, id) && q.releasing == p.releasing
            && q.sessions == (if i == |p.sessions| then p.sessions else p.sessions[..i] + p.sessions[i + 1..])
            && forall j :: 0 <= j < |p.sessions| && j != i ==> p.sessions[j].id != id
  {
  }

  lemma MaintainedPages(c: PoolConfig, p: Pool, id: nat, now: int, j: nat)
    requires j < |Maintained(c, p, id, now).sessions|
    ensures var s := Maintained(c, p, id, now).sessions[j]; Had(p.sessions, s.id, s.activePages)
  {
    var q := Maintained(c, p, id, now);
    var m := if |q.sessions| < |p.sessions| && IndexOf(p.sessions, id) <= j then j + 1 else j;
    assert p.sessions[m].id == q.sessions[j].id && p.sessions[m].activePages == q.sessions[j].activePages;
  }

  lemma MaintainedTally(c: PoolConfig, p: Pool, id: nat, now: int)
    requires Tally(p) && KnownIds(p)
    ensures Tally(Maintained(c, p, id, now)) && KnownIds(Maintained(c, p, id, now))
  {
    var q := Maintained(c, p, id, now);
    forall j | 0 <= j < |q.sessions| ensures Had(p.sessions, q.sessions[j].id, q.sessions[j].activePages) {
      MaintainedPages(c, p, id, now, j);
    }
    TallyTransfer(p, q);
  }

  lemma {:induction false} MaintainedAllTally(c: PoolConfig, p: Pool, ids: seq<nat>, now: int)
    requires Tally(p) && KnownIds(p)
    ensures Tally(MaintainedAll(c, p, ids, now)) && KnownIds(MaintainedAll(c, p, ids, now))
    ensures MaintainedAll(c, p, ids, now).handles == p.handles
  {
    if ids != [] {
      MaintainedAllTally(c, p, ids[..|ids| - 1], now);
      MaintainedTally(c, MaintainedAll(c, p, ids[..|ids| - 1], now), ids[|ids| - 1], now);
    }
  }

  lemma {:induction false} ForceReleasedTally(c: PoolConfig, p: Pool, n: nat, now: int)
    requires TallyInv(c, p) && n <= |p.handles|
    ensures TallyInv(c, ForceReleased(c, p, p.handles[..n], now))
    ensures forall i :: n <= i < |p.handles| ==> p.handles[i] in ForceReleased(c, p, p.handles[..n], now).handles
  {
    if n != 0 {
      var h := p.handles[n - 1];
      var q := ForceReleased(c, p, p.handles[..n - 1], now);
      ForceReleasedTally(c, p, n - 1, now);
      assert p.handles[..n][..n - 1] == p.handles[..n - 1];
      if StaleHandle(c, h, now) {
        ForcedTally(c, q, h);
        forall i | n <= i < |p.handles| ensures p.handles[i] in Releasing(q, h).handles {
          assert p.handles[i].id != h.id;
        }
      }
    }
  }

  lemma ForcedTally(c: PoolConfig, q: Pool, h: PageHandle)
    requires TallyInv(c, q) && h in q.handles
    ensures TallyInv(c, Releasing(q, h))
    ensures forall g :: g in Releasing(q, h).handles <==> g in q.handles && g.id != h.id
  {
    HandleKnown(q, h);
    ReleaseKeepsTallyIff(c, q, h);
    assert Step(c, q, ReleasePage(h)) == Releasing(q, h);
    DropMembers(q.handles, h.id);
    ReleasingKeeps(c, q, h);
  }

  lemma HandleKnown(p: Pool, h: PageHandle)
    requires KnownIds(p) && h in p.handles
    ensures h.id < p.nextId && h.sessionId < p.nextId
  {
    var i :| 0 <= i < |p.handles| && p.handles[i] == h;
  }

  lemma MaintenanceTally(c: PoolConfig, p: Pool, now: int)
    requires ValidConfig(c) && TallyInv(c, p)
    ensures Tally(MaintenancePass(c, p, now)) && KnownIds(MaintenancePass(c, p, now))
  {
    var q := MaintainedAll(c, p, Ids(p.sessions), now);
    MaintainedAllTally(c, p, Ids(p.sessions), now);
    MaintainedAllKeeps(c, p, Ids(p.sessions), now);
    ForceReleasedTally(c, q, |q.handles|, now);
    assert q.handles[..|q.handles|] == p.handles;
  }

  lemma ConnectTally(c: PoolConfig, p: Pool, id: nat)
    requires Tally(p) && KnownIds(p)
    ensures Tally(ConnectedTo(c, p, id)) && KnownIds(ConnectedTo(c, p, id))
    ensures Tally(ConnectionFailed(p, id)) && KnownIds(ConnectionFailed(p, id))
  {
    TallyTransfer(p, ConnectedTo(c, p, id));
    TallyTransfer(p, ConnectionFailed(p, id));
  }

  /** A one-shot page has a browser of its own, which is no session. */
  lemma OneShotTally(c: PoolConfig, p: Pool, now: int)
    requires TallyInv(c, p)
    ensures Tally(Step(c, p, OneShot(now))) && KnownIds(Step(c, p, OneShot(now)))
  {
    var q := Step(c, p, OneShot(now));
    forall i | 0 <= i < |q.sessions| ensures TallyOf(q, q.sessions[i]) {
      assert TallyOf(p, p.sessions[i]);
      HandlesAppend(p.handles, PageHandle(p.nextId, p.nextId + 1, now), p.sessions[i].id);
    }
  }

  lemma AcquisitionTally(c: PoolConfig, p: Pool, e: Event)
    requires ValidConfig(c) && TallyInv(c, p) && e.Acquiring()
    ensures Tally(Step(c, p, e)) && KnownIds(Step(c, p, e))
  {
    match e
    case AcquirePage(now) =>
      CapacityTally(c, p, now);
      TallyTransfer(EnsuredCapacity(c, p, now), Step(c, p, e));
    case Opened(now) => OpenedTally(c, p, now);
    case _ =>
      SessionsGrow(c, p, e);
      TallyTransfer(p, Step(c, p, e));
  }

  /** Until its page is open, an acquisition adds at most a session being started. */
  lemma SessionsGrow(c: PoolConfig, p: Pool, e: Event)
    requires e.Begin? || e.PollTick? || e.Resume? || e.OpenFailed?
    ensures var q := Step(c, p, e);
            && q.handles == p.handles && q.releasing == p.releasing && p.nextId <= q.nextId
            && (q.sessions == p.sessions ||
                exists now :: q.sessions == p.sessions + [PoolSession(p.nextId, Starting, 0, 0, now, now)])
  {
  }

  lemma StepTally(c: PoolConfig, p: Pool, e: Event)
    requires ValidConfig(c) && TallyInv(c, p) && (e.ReleasePage? ==> FirstRelease(p, e.handle))
    ensures Tally(Step(c, p, e)) && KnownIds(Step(c, p, e))
  {
    match e
    case Connected(id) => ConnectTally(c, p, id);
    case ConnectFailed(id) => ConnectTally(c, p, id);
    case Disconnected(id) => LostTally(c, p, id);
    case ReleasePage(h) =>
      if h in p.handles { HandleKnown(p, h); }
      ReleaseKeepsTallyIff(c, p, h);
    case ContextClosed(k, now) => ReleasedTally(c, p, k, now);
    case OneShot(now) => OneShotTally(c, p, now);
    case Maintenance(now) => MaintenanceTally(c, p, now);
    case BrowserClosed => TallyTransfer(p, Step(c, p, e));
    case SlotTimer(ticket) => TallyTransfer(p, Step(c, p, e));
    case _ => AcquisitionTally(c, p, e);
  }

  lemma {:induction false} RunTally(c: PoolConfig, p: Pool, es: seq<Event>)
    requires ValidConfig(c) && TallyInv(c, p) && NoneTwice(c, p, es)
    ensures TallyInv(c, Run(c, p, es))
  {
    if es != [] {
      RunTally(c, p, es[..|es| - 1]);
      StepKeeps(c, Run(c, p, es[..|es| - 1]), es[|es| - 1]);
      StepTally(c, Run(c, p, es[..|es| - 1]), es[|es| - 1]);
    }
  }

  lemma {:induction false} WarmTally(c: PoolConfig, n: nat, now: int)
    requires ValidConfig(c) && n <= c.minSessions
    ensures TallyInv(c, Warm(EMPTY, n, now))
    ensures Warm(EMPTY, n, now).handles == [] && Warm(EMPTY, n, now).releasing == []
  {
    WarmKeeps(c, n, now);
    if n != 0 {
      WarmTally(c, n - 1, now);
      TallyTransfer(Warm(EMPTY, n - 1, now), Warm(EMPTY, n, now));
    }
  }

  /** Over every run from `start` in which no handle is released twice: a session's pages are its
      live handles plus its releases in flight. */
  lemma PagesAreHandles(c: PoolConfig, es: seq<Event>, start: int)
    requires ValidConfig(c) && NoneTwice(c, Warm(EMPTY, c.minSessions, start), es)
    ensures var p := Run(c, Warm(EMPTY, c.minSessions, start), es);
            forall i :: 0 <= i < |p.sessions| ==>
              p.sessions[i].activePages ==
              HandlesOf(p.handles, p.sessions[i].id) + multiset(p.releasing)[p.sessions[i].id]
  {
    WarmTally(c, c.minSessions, start);
    RunTally(c, Warm(EMPTY, c.minSessions, start), es);
    var p := Run(c, Warm(EMPTY, c.minSessions, start), es);
    assert forall i :: 0 <= i < |p.sessions| ==> TallyOf(p, p.sessions[i]);
  }
}
