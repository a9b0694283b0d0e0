/** The browser session pool (src/core/pool/session-pool.ts) before shutdown, as a machine whose
    steps are the stretches of code between two awaits. Connecting a browser, opening a context,
    closing one and every timer are separate steps that may come at any moment. */
module SessionPool {
  import opened Basics

  datatype PoolConfig = PoolConfig(
    minSessions: nat,
    maxSessions: nat,
    maxPagesPerSession: nat,
    retireAfterPages: nat,
    retireAfterMs: int,
    idleTimeoutMs: int,
    pageTimeoutMs: int)

  /** The bounds the configuration schema enforces, and that `start` can warm up. */
  predicate ValidConfig(c: PoolConfig) {
    1 <= c.maxSessions && 1 <= c.maxPagesPerSession && 1 <= c.retireAfterPages && c.minSessions <= c.maxSessions
  }

  datatype SessionState = Starting | Active | Retiring | Closed

  datatype PoolSession = PoolSession(
    id: nat,
    state: SessionState,
    activePages: nat,
    totalPagesServed: nat,
    createdAt: int,
    lastActivity: int)

  datatype PageHandle = PageHandle(id: nat, sessionId: nat, acquiredAt: int)

  datatype Outcome = Pending | Created | Failed

  /** Where the one running acquisition is suspended. */
  datatype Acquisition =
    | Idle
    | Polling(tries: nat)
    | Creating(sessionId: nat, outcome: Outcome)
    | WaitingSlot(ticket: nat)
    | Woken(granted: bool)
    | Opening(sessionId: nat)

  /** `sessions` is the map in insertion order. `detached` is the session the running acquisition
      still holds after it left the map. `releasing` are the sessions of handles whose context is
      closing, `closing` the releases that wait for a browser to close, `pending` the
      acquisitions chained behind the running one. */
  datatype Pool = Pool(
    sessions: seq<PoolSession>,
    detached: Option<PoolSession>,
    handles: seq<PageHandle>,
    waiting: seq<nat>,
    creatingSession: bool,
    acquisition: Acquisition,
    pending: nat,
    releasing: seq<nat>,
    closing: nat,
    nextId: nat)

  const EMPTY := Pool([], None, [], [], false, Idle, 0, [], 0, 0)

  // ---------------------------------------------------------------- reading the map

  function IndexOf(ss: seq<PoolSession>, id: nat): (i: nat)
    ensures i <= |ss|
    ensures i < |ss| ==> ss[i].id == id
    ensures i == |ss| ==> forall k :: 0 <= k < |ss| ==> ss[k].id != id
  {
    if ss == [] then 0 else if ss[0].id == id then 0 else 1 + IndexOf(ss[1..], id)
  }

  function CountByState(ss: seq<PoolSession>, st: SessionState): nat {
    if ss == [] then 0 else CountByState(ss[..|ss| - 1], st) + if ss[|ss| - 1].state == st then 1 else 0
  }

  function Managed(ss: seq<PoolSession>): nat {
    CountByState(ss, Active) + CountByState(ss, Starting)
  }

  predicate Usable(c: PoolConfig, s: PoolSession) {
    s.state == Active && s.activePages < c.maxPagesPerSession
  }

  /** The first of the least loaded usable sessions, or the length. */
  function FindAvailable(c: PoolConfig, ss: seq<PoolSession>): (b: nat)
    ensures b <= |ss|
    ensures b < |ss| ==> Usable(c, ss[b])
    ensures b < |ss| ==> forall j :: 0 <= j < |ss| && Usable(c, ss[j]) ==> ss[b].activePages <= ss[j].activePages
    ensures b == |ss| ==> forall j :: 0 <= j < |ss| ==> !Usable(c, ss[j])
  {
    if ss == [] then 0 else
      var n := |ss| - 1;
      var b := FindAvailable(c, ss[..n]);
      assert forall j :: 0 <= j < n ==> ss[..n][j] == ss[j];
      if !Usable(c, ss[n]) then (if b == n then n + 1 else b)
      else if b == n || ss[n].activePages < ss[b].activePages then n
      else b
  }

  /** Free page slots over all active sessions, as counted for scaling up. */
  function AvailableSlots(c: PoolConfig, ss: seq<PoolSession>): int {
    if ss == [] then 0 else
      AvailableSlots(c, ss[..|ss| - 1]) +
      if ss[|ss| - 1].state == Active then c.maxPagesPerSession - ss[|ss| - 1].activePages else 0
  }

  function ScaleThreshold(c: PoolConfig): int {
    Max(3, c.maxPagesPerSession * 3 / 10)
  }

  // ---------------------------------------------------------------- the building blocks

  function Fresh(id: nat, now: int): PoolSession {
    PoolSession(id, Starting, 0, 0, now, now)
  }

  /** The synchronous part of createSession. */
  function WithNewSession(p: Pool, now: int): Pool {
    p.(creatingSession := true, sessions := p.sessions + [Fresh(p.nextId, now)], nextId := p.nextId + 1)
  }

  function EnsuredCapacity(c: PoolConfig, p: Pool, now: int): Pool {
    if p.creatingSession || c.maxSessions <= Managed(p.sessions) then p
    else if AvailableSlots(c, p.sessions) < ScaleThreshold(c) then WithNewSession(p, now)
    else p
  }

  /** Does the running acquisition hold this session? */
  predicate Holds(a: Acquisition, id: nat) {
    (a.Creating? && a.sessionId == id && a.outcome != Failed) || (a.Opening? && a.sessionId == id)
  }

  function Without(ss: seq<PoolSession>, i: nat): seq<PoolSession>
    requires i < |ss|
  {
    ss[..i] + ss[i + 1..]
  }

  /** The session at position `i` leaves the map; its last record is `last`. */
  function Leave(p: Pool, i: nat, last: PoolSession): Pool
    requires i < |p.sessions|
  {
    p.(sessions := Without(p.sessions, i),
       detached := if Holds(p.acquisition, last.id) then Some(last) else p.detached)
  }

  /** retireSession: only an active session retires, and an idle one closes at once. */
  function Retired(p: Pool, i: nat): Pool
    requires i < |p.sessions|
  {
    var s := p.sessions[i];
    if s.state != Active then p
    else if s.activePages == 0 then Leave(p, i, s.(state := Closed))
    else p.(sessions := p.sessions[i := s.(state := Retiring)])
  }

  /** dequeueNext: the waiter is woken when a session has room. */
  function Dequeued(c: PoolConfig, p: Pool): Pool {
    if p.waiting == [] || FindAvailable(c, p.sessions) == |p.sessions| then p
    else p.(waiting := p.waiting[1..], acquisition := Woken(true))
  }

  // ---------------------------------------------------------------- the steps

  datatype Event =
    | AcquirePage(now: int)
    | Begin(now: int)
    | PollTick(now: int)
    | Resume(now: int)
    | Opened(now: int)
    | OpenFailed
    | Connected(id: nat)
    | ConnectFailed(id: nat)
    | Disconnected(id: nat)
    | ReleasePage(handle: PageHandle)
    | ContextClosed(position: nat, now: int)
    | BrowserClosed
    | SlotTimer(ticket: nat)
    | OneShot(now: int)
    | Maintenance(now: int)
  {
    /** An event of the acquisition at the head of the line, or a new one. */
    predicate Acquiring() {
      AcquirePage? || Begin? || PollTick? || Resume? || Opened? || OpenFailed?
    }
  }

  /** doAcquirePage, step 3 and the start of step 4: create a session or wait for a slot. */
  function CreateOrWait(c: PoolConfig, p: Pool, now: int): Pool {
    if Managed(p.sessions) < c.maxSessions then
      WithNewSession(p, now).(acquisition := Creating(p.nextId, Pending))
    else
      p.(waiting := p.waiting + [p.nextId], acquisition := WaitingSlot(p.nextId), nextId := p.nextId + 1)
  }

  /** The head of the lock chain starts to run. */
  function Begun(c: PoolConfig, p: Pool, now: int): Pool {
    if p.acquisition != Idle || p.pending == 0 then p else
      var q := p.(pending := p.pending - 1);
      var b := FindAvailable(c, p.sessions);
      if b < |p.sessions| then q.(acquisition := Opening(p.sessions[b].id))
      else if p.creatingSession then q.(acquisition := Polling(0))
      else CreateOrWait(c, q, now)
  }

  /** One of the twenty looks while a session is being created. */
  function Polled(c: PoolConfig, p: Pool, now: int): Pool {
    if !p.acquisition.Polling? then p else
      var b := FindAvailable(c, p.sessions);
      if b < |p.sessions| then p.(acquisition := Opening(p.sessions[b].id))
      else if p.acquisition.tries + 1 < 20 then p.(acquisition := Polling(p.acquisition.tries + 1))
      else CreateOrWait(c, p, now)
  }

  /** The acquisition continues after its own session was created or its wait was answered. */
  function Resumed(c: PoolConfig, p: Pool): Pool {
    match p.acquisition
    case Creating(id, Created) => p.(acquisition := Opening(id))
    case Creating(id, Failed) => p.(acquisition := Idle)
    case Woken(granted) =>
      var b := FindAvailable(c, p.sessions);
      if granted && b < |p.sessions| then p.(acquisition := Opening(p.sessions[b].id))
      else p.(acquisition := Idle)
    case _ => p
  }

  /** The acquisition ends: nothing is held any more. */
  function Ended(p: Pool): Pool {
    p.(acquisition := Idle, detached := None)
  }

  function Served(s: PoolSession, now: int): PoolSession {
    s.(activePages := s.activePages + 1, totalPagesServed := s.totalPagesServed + 1, lastActivity := now)
  }

  /** One page more on the session at position `i`, which retires if that was its last. */
  function Counted(c: PoolConfig, p: Pool, i: nat, now: int): Pool
    requires i < |p.sessions|
  {
    var s := Served(p.sessions[i], now);
    var counted := p.(sessions := p.sessions[i := s]);
    if c.retireAfterPages <= s.totalPagesServed then Retired(counted, i) else counted
  }

  /** The acquisition ends by handing out a new handle. */
  function HandedOut(p: Pool, id: nat, now: int): Pool {
    Ended(p).(handles := p.handles + [PageHandle(p.nextId, id, now)], nextId := p.nextId + 1)
  }

  /** Context and page are open: the page is counted, handed out, and the session retires if due. */
  function PageOpened(c: PoolConfig, p: Pool, now: int): Pool {
    if !p.acquisition.Opening? then p else
      var q := HandedOut(p, p.acquisition.sessionId, now);
      var i := IndexOf(q.sessions, p.acquisition.sessionId);
      EnsuredCapacity(c, if i == |q.sessions| then q else Counted(c, q, i, now), now)
  }

  function ConnectedTo(c: PoolConfig, p: Pool, id: nat): Pool {
    var i := IndexOf(p.sessions, id);
    if i == |p.sessions| || p.sessions[i].state != Starting then p else
      var q := p.(sessions := p.sessions[i := p.sessions[i].(state := Active)],
                  acquisition := if p.acquisition == Creating(id, Pending) then Creating(id, Created)
                                 else p.acquisition);
      Dequeued(c, q).(creatingSession := false)
  }

  function ConnectionFailed(p: Pool, id: nat): Pool {
    var i := IndexOf(p.sessions, id);
    if i == |p.sessions| || p.sessions[i].state != Starting then p else
      p.(sessions := Without(p.sessions, i), creatingSession := false,
         acquisition := if p.acquisition == Creating(id, Pending) then Creating(id, Failed) else p.acquisition)
  }

  function HandlesOf(hs: seq<PageHandle>, id: nat): nat {
    if hs == [] then 0 else HandlesOf(hs[..|hs| - 1], id) + if hs[|hs| - 1].sessionId == id then 1 else 0
  }

  function HandlesWithout(hs: seq<PageHandle>, id: nat): seq<PageHandle> {
    if hs == [] then [] else
      HandlesWithout(hs[..|hs| - 1], id) + if hs[|hs| - 1].sessionId == id then [] else [hs[|hs| - 1]]
  }

  /** `Math.max(0, activePages - n)`. */
  function Freed(s: PoolSession, n: nat): PoolSession {
    s.(activePages := Max(0, s.activePages - n))
  }

  /** A browser disconnects: its session closes, its handles go, a waiter may go on. A session
      that had left the map before only loses its handles. */
  function Lost(c: PoolConfig, p: Pool, id: nat): Pool {
    var i := IndexOf(p.sessions, id);
    var n := HandlesOf(p.handles, id);
    var q := p.(handles := HandlesWithout(p.handles, id));
    if i < |p.sessions| then
      if p.sessions[i].state == Starting then p
      else Dequeued(c, Leave(q, i, Freed(p.sessions[i].(state := Closed), n)))
    else if p.detached.Some? && p.detached.value.id == id then
      Dequeued(c, q.(detached := Some(Freed(p.detached.value.(state := Closed), n))))
    else Dequeued(c, q)
  }

  function DropHandle(hs: seq<PageHandle>, id: nat): seq<PageHandle> {
    if hs == [] then [] else
      DropHandle(hs[..|hs| - 1], id) + if hs[|hs| - 1].id == id then [] else [hs[|hs| - 1]]
  }

  /** releasePage up to its first await. Any handle may be released, even twice. */
  function Releasing(p: Pool, h: PageHandle): Pool {
    p.(handles := DropHandle(p.handles, h.id), releasing := p.releasing + [h.sessionId])
  }

  /** The rest of releasePage for one of the releases in flight: contexts close in any order. */
  function Released(c: PoolConfig, p: Pool, k: nat, now: int): Pool {
    if |p.releasing| <= k then p else
      GivenBack(c, p.(releasing := p.releasing[..k] + p.releasing[k + 1..]), p.releasing[k], now)
  }

  /** One page of a session is given back, if the session is still in the map. */
  function GivenBack(c: PoolConfig, p: Pool, id: nat, now: int): Pool {
    var i := IndexOf(p.sessions, id);
    if i == |p.sessions| then p else
      var s := Freed(p.sessions[i], 1).(lastActivity := now);
      if s.state == Retiring && s.activePages == 0 then
        Leave(p, i, s.(state := Closed)).(closing := p.closing + 1)
      else
        Dequeued(c, p.(sessions := p.sessions[i := s]))
  }

  function SlotTimedOut(p: Pool, ticket: nat): Pool {
    if ticket in p.waiting then
      p.(waiting := Remove(p.waiting, ticket),
         acquisition := if p.acquisition == WaitingSlot(ticket) then Woken(false) else p.acquisition)
    else p
  }

  function Remove(ts: seq<nat>, t: nat): seq<nat> {
    if ts == [] then [] else if ts[0] == t then ts[1..] else [ts[0]] + Remove(ts[1..], t)
  }

  /** Maintenance looks at one session of its snapshot. */
  function Maintained(c: PoolConfig, p: Pool, id: nat, now: int): Pool {
    var i := IndexOf(p.sessions, id);
    if i == |p.sessions| then p else
      var s := p.sessions[i];
      if s.state == Active && c.retireAfterMs <= now - s.createdAt then Retired(p, i)
      else
        var idle := s.state == Active && s.activePages == 0 && c.idleTimeoutMs <= now - s.lastActivity;
        if idle && c.minSessions < CountByState(p.sessions, Active) then Retired(p, i)
        else if s.state == Retiring && s.activePages == 0 then Leave(p, i, s.(state := Closed))
        else p
  }

  function MaintainedAll(c: PoolConfig, p: Pool, ids: seq<nat>, now: int): Pool {
    if ids == [] then p else Maintained(c, MaintainedAll(c, p, ids[..|ids| - 1], now), ids[|ids| - 1], now)
  }

  function Ids(ss: seq<PoolSession>): (r: seq<nat>)
    ensures |r| == |ss| && forall i :: 0 <= i < |ss| ==> r[i] == ss[i].id
  {
    seq(|ss|, i requires 0 <= i < |ss| => ss[i].id)
  }

  predicate StaleHandle(c: PoolConfig, h: PageHandle, now: int) {
    c.pageTimeoutMs * 2 <= now - h.acquiredAt
  }

  /** Handles held too long are released by force. */
  function ForceReleased(c: PoolConfig, p: Pool, hs: seq<PageHandle>, now: int): Pool {
    if hs == [] then p else
      var q := ForceReleased(c, p, hs[..|hs| - 1], now);
      if StaleHandle(c, hs[|hs| - 1], now) then Releasing(q, hs[|hs| - 1]) else q
  }

  function MaintenancePass(c: PoolConfig, p: Pool, now: int): Pool {
    ForceReleased(c, MaintainedAll(c, p, Ids(p.sessions), now), p.handles, now)
  }

  function Step(c: PoolConfig, p: Pool, e: Event): Pool {
    match e
    case AcquirePage(now) => var q := EnsuredCapacity(c, p, now); q.(pending := q.pending + 1)
    case Begin(now) => Begun(c, p, now)
    case PollTick(now) => Polled(c, p, now)
    case Resume(now) => Resumed(c, p)
    case Opened(now) => PageOpened(c, p, now)
    case OpenFailed => if p.acquisition.Opening? then Ended(p) else p
    case Connected(id) => ConnectedTo(c, p, id)
    case ConnectFailed(id) => ConnectionFailed(p, id)
    case Disconnected(id) => Lost(c, p, id)
    case ReleasePage(h) => Releasing(p, h)
    case ContextClosed(k, now) => Released(c, p, k, now)
    case BrowserClosed => if 0 < p.closing then Dequeued(c, p.(closing := p.closing - 1)) else p
    case SlotTimer(ticket) => SlotTimedOut(p, ticket)
    case OneShot(now) => p.(handles := p.handles + [PageHandle(p.nextId, p.nextId + 1, now)], nextId := p.nextId + 2)
    case Maintenance(now) => MaintenancePass(c, p, now)
  }

  /** `start`: every warm-up session is created before the first await. */
  function Warm(p: Pool, n: nat, now: int): Pool {
    if n == 0 then p else WithNewSession(Warm(p, n - 1, now), now)
  }

  function Run(c: PoolConfig, p: Pool, es: seq<Event>): Pool {
    if es == [] then p else Step(c, Run(c, p, es[..|es| - 1]), es[|es| - 1])
  }

  // ---------------------------------------------------------------- the capacity invariant

  predicate WithinLimits(c: PoolConfig, s: PoolSession) {
    && s.activePages <= c.maxPagesPerSession
    && s.totalPagesServed <= c.retireAfterPages
    && (s.state == Active || s.state == Starting ==> s.totalPagesServed < c.retireAfterPages)
    && (s.state == Starting ==> s.activePages == 0)
  }

  /** A session that one more page may be counted on. */
  predicate HasRoom(c: PoolConfig, s: PoolSession) {
    s.activePages < c.maxPagesPerSession && s.totalPagesServed < c.retireAfterPages
  }

  ghost predicate MapInv(c: PoolConfig, p: Pool) {
    && Managed(p.sessions) <= c.maxSessions
    && (forall i :: 0 <= i < |p.sessions| ==>
          WithinLimits(c, p.sessions[i]) && p.sessions[i].state != Closed && p.sessions[i].id < p.nextId)
    && (forall i, j :: 0 <= i < j < |p.sessions| ==> p.sessions[i].id != p.sessions[j].id)
  }

  /** Whatever session the running acquisition holds, in the map or not, has room for its page. */
  ghost predicate HoldInv(c: PoolConfig, p: Pool) {
    && (p.acquisition.Creating? || p.acquisition.Opening? ==> p.acquisition.sessionId < p.nextId)
    && (forall i :: 0 <= i < |p.sessions| && Holds(p.acquisition, p.sessions[i].id) &&
                    p.sessions[i].state == Starting ==>
          p.acquisition == Creating(p.sessions[i].id, Pending))
    && (forall i :: 0 <= i < |p.sessions| && Holds(p.acquisition, p.sessions[i].id) ==> HasRoom(c, p.sessions[i]))
    && (p.detached.Some? ==>
          && Holds(p.acquisition, p.detached.value.id) && HasRoom(c, p.detached.value)
          && p.detached.value.state == Closed && p.detached.value.id < p.nextId
          && forall i :: 0 <= i < |p.sessions| ==> p.sessions[i].id != p.detached.value.id)
  }

  /** The queue holds the waiter of the running acquisition, or nobody. */
  ghost predicate QueueInv(p: Pool) {
    p.waiting == if p.acquisition.WaitingSlot? then [p.acquisition.ticket] else []
  }

  ghost predicate Inv(c: PoolConfig, p: Pool) {
    MapInv(c, p) && HoldInv(c, p) && QueueInv(p)
  }

  lemma {:induction false} CountUpdate(ss: seq<PoolSession>, i: nat, s: PoolSession, st: SessionState)
    requires i < |ss|
    ensures CountByState(ss[i := s], st) ==
            CountByState(ss, st) - (if ss[i].state == st then 1 else 0) + if s.state == st then 1 else 0
  {
    var n := |ss| - 1;
    if i == n {
      assert ss[i := s][..n] == ss[..n];
    } else {
      CountUpdate(ss[..n], i, s, st);
      assert ss[i := s][..n] == ss[..n][i := s];
    }
  }

  lemma {:induction false} CountWithout(ss: seq<PoolSession>, i: nat, st: SessionState)
    requires i < |ss|
    ensures CountByState(Without(ss, i), st) == CountByState(ss, st) - if ss[i].state == st then 1 else 0
  {
    var n := |ss| - 1;
    if i == n {
      assert Without(ss, i) == ss[..n];
    } else {
      var left := Without(ss, i);
      assert left[..n - 1] == Without(ss[..n], i) && left[n - 1] == ss[n];
      CountWithout(ss[..n], i, st);
    }
  }

  lemma CountAppend(ss: seq<PoolSession>, s: PoolSession, st: SessionState)
    ensures CountByState(ss + [s], st) == CountByState(ss, st) + if s.state == st then 1 else 0
  {
  }

  lemma NewSessionKeeps(c: PoolConfig, p: Pool, now: int)
    requires ValidConfig(c) && Inv(c, p) && Managed(p.sessions) < c.maxSessions
    ensures Inv(c, WithNewSession(p, now))
    ensures Managed(WithNewSession(p, now).sessions) == Managed(p.sessions) + 1
  {
    CountAppend(p.sessions, Fresh(p.nextId, now), Active);
    CountAppend(p.sessions, Fresh(p.nextId, now), Starting);
    NewSessionFits(c, p, now);
    NewSessionNotHeld(c, p, now);
  }

  lemma NewSessionFits(c: PoolConfig, p: Pool, now: int)
    requires ValidConfig(c) && MapInv(c, p)
    requires Managed(WithNewSession(p, now).sessions) <= c.maxSessions
    ensures MapInv(c, WithNewSession(p, now))
  {
    var n, q := |p.sessions|, WithNewSession(p, now);
    forall k | 0 <= k < |q.sessions| ensures q.sessions[k] == if k < n then p.sessions[k] else Fresh(p.nextId, now) {}
  }

  /** The new identifier is none that an acquisition holds. */
  lemma NewSessionNotHeld(c: PoolConfig, p: Pool, now: int)
    requires HoldInv(c, p)
    ensures HoldInv(c, WithNewSession(p, now))
  {
    var n, q := |p.sessions|, WithNewSession(p, now);
    forall k | 0 <= k < |q.sessions| ensures q.sessions[k] == if k < n then p.sessions[k] else Fresh(p.nextId, now) {}
    assert !Holds(q.acquisition, p.nextId);
  }

  lemma CapacityKeeps(c: PoolConfig, p: Pool, now: int)
    requires ValidConfig(c) && Inv(c, p)
    ensures Inv(c, EnsuredCapacity(c, p, now))
  {
    if Managed(p.sessions) < c.maxSessions {
      NewSessionKeeps(c, p, now);
    }
  }

  /** Writing back a record under the same identifier. */
  lemma UpdateKeeps(c: PoolConfig, p: Pool, i: nat, s: PoolSession)
    requires Inv(c, p) && i < |p.sessions| && s.id == p.sessions[i].id
    requires WithinLimits(c, s) && s.state != Closed
    requires Holds(p.acquisition, s.id) ==> HasRoom(c, s)
    requires s.state == p.sessions[i].state || (s.state == Active && p.sessions[i].state == Starting) ||
             s.state == Retiring
    ensures Inv(c, p.(sessions := p.sessions[i := s]))
  {
    CountUpdate(p.sessions, i, s, Active);
    CountUpdate(p.sessions, i, s, Starting);
  }

  lemma LeaveKeeps(c: PoolConfig, p: Pool, i: nat, last: PoolSession)
    requires Inv(c, p) && i < |p.sessions|
    requires last.id == p.sessions[i].id && last.state == Closed
    requires Holds(p.acquisition, last.id) ==> HasRoom(c, last)
    ensures Inv(c, Leave(p, i, last))
  {
    CountWithout(p.sessions, i, Active);
    CountWithout(p.sessions, i, Starting);
    LeaveFits(c, p, i, last);
    LeaveHolds(c, p, i, last);
  }

  lemma LeaveFits(c: PoolConfig, p: Pool, i: nat, last: PoolSession)
    requires MapInv(c, p) && i < |p.sessions| && Managed(Without(p.sessions, i)) <= c.maxSessions
    ensures MapInv(c, Leave(p, i, last))
  {
  }

  lemma LeaveHolds(c: PoolConfig, p: Pool, i: nat, last: PoolSession)
    requires MapInv(c, p) && HoldInv(c, p) && i < |p.sessions|
    requires last.id == p.sessions[i].id && last.state == Closed
    requires Holds(p.acquisition, last.id) ==> HasRoom(c, last)
    ensures HoldInv(c, Leave(p, i, last))
  {
  }

  lemma RetiredKeeps(c: PoolConfig, p: Pool, i: nat)
    requires Inv(c, p) && i < |p.sessions|
    ensures Inv(c, Retired(p, i))
  {
    var s := p.sessions[i];
    if s.state == Active {
      if s.activePages == 0 {
        LeaveKeeps(c, p, i, s.(state := Closed));
      } else {
        UpdateKeeps(c, p, i, s.(state := Retiring));
      }
    }
  }

  lemma DequeuedKeeps(c: PoolConfig, p: Pool)
    requires Inv(c, p)
    ensures Inv(c, Dequeued(c, p))
  {
  }

  lemma CreateOrWaitKeeps(c: PoolConfig, p: Pool, now: int)
    requires ValidConfig(c) && Inv(c, p)
    requires p.acquisition == Idle || p.acquisition.Polling?
    ensures Inv(c, CreateOrWait(c, p, now))
  {
    if Managed(p.sessions) < c.maxSessions {
      CreateKeeps(c, p, now);
    } else {
      QueueUpKeeps(c, p);
    }
  }

  lemma CreateKeeps(c: PoolConfig, p: Pool, now: int)
    requires ValidConfig(c) && Inv(c, p) && Managed(p.sessions) < c.maxSessions
    requires p.acquisition == Idle || p.acquisition.Polling?
    ensures Inv(c, WithNewSession(p, now).(acquisition := Creating(p.nextId, Pending)))
  {
    var q := WithNewSession(p, now);
    assert Inv(c, q) by { NewSessionKeeps(c, p, now); }
    var n, r := |p.sessions|, q.(acquisition := Creating(p.nextId, Pending));
    assert MapInv(c, r) && QueueInv(r);
    assert r.sessions[n] == Fresh(p.nextId, now);
    assert forall i :: 0 <= i < n ==> r.sessions[i].id == p.sessions[i].id;
  }

  lemma QueueUpKeeps(c: PoolConfig, p: Pool)
    requires Inv(c, p) && (p.acquisition == Idle || p.acquisition.Polling?)
    ensures Inv(c, p.(waiting := p.waiting + [p.nextId], acquisition := WaitingSlot(p.nextId), nextId := p.nextId + 1))
  {
  }

  /** The acquisition takes a usable session: it has room. */
  lemma TakeKeeps(c: PoolConfig, p: Pool, b: nat)
    requires Inv(c, p) && b < |p.sessions| && Usable(c, p.sessions[b])
    requires p.waiting == [] && p.detached == None
    ensures Inv(c, p.(acquisition := Opening(p.sessions[b].id)))
  {
  }

  lemma BegunKeeps(c: PoolConfig, p: Pool, now: int)
    requires ValidConfig(c) && Inv(c, p)
    ensures Inv(c, Begun(c, p, now))
  {
    if p.acquisition == Idle && p.pending != 0 {
      var q := p.(pending := p.pending - 1);
      var b := FindAvailable(c, p.sessions);
      if b < |p.sessions| {
        TakeKeeps(c, q, b);
      } else if !p.creatingSession {
        CreateOrWaitKeeps(c, q, now);
      }
    }
  }

  lemma PolledKeeps(c: PoolConfig, p: Pool, now: int)
    requires ValidConfig(c) && Inv(c, p)
    ensures Inv(c, Polled(c, p, now))
  {
    if p.acquisition.Polling? {
      var b := FindAvailable(c, p.sessions);
      if b < |p.sessions| {
        TakeKeeps(c, p, b);
      } else if p.acquisition.tries + 1 >= 20 {
        CreateOrWaitKeeps(c, p, now);
      }
    }
  }

  lemma EndedKeeps(c: PoolConfig, p: Pool)
    requires Inv(c, p) && !p.acquisition.WaitingSlot?
    ensures Inv(c, Ended(p))
  {
  }

  lemma NextIdKeeps(c: PoolConfig, p: Pool, handles: seq<PageHandle>, nextId: nat)
    requires Inv(c, p) && p.nextId <= nextId
    ensures Inv(c, p.(handles := handles, nextId := nextId))
  {
  }

  lemma PageOpenedKeeps(c: PoolConfig, p: Pool, now: int)
    requires ValidConfig(c) && Inv(c, p)
    ensures Inv(c, PageOpened(c, p, now))
  {
    if p.acquisition.Opening? {
      var id := p.acquisition.sessionId;
      var q := HandedOut(p, id, now);
      EndedKeeps(c, p);
      NextIdKeeps(c, Ended(p), q.handles, q.nextId);
      var i := IndexOf(q.sessions, id);
      if i < |q.sessions| {
        HeldHasRoom(c, p, i);
        CountedKeeps(c, q, i, now);
      }
      CapacityKeeps(c, if i == |q.sessions| then q else Counted(c, q, i, now), now);
    }
  }

  /** The session a page is being opened on has room for it and has been started. */
  lemma HeldHasRoom(c: PoolConfig, p: Pool, i: nat)
    requires Inv(c, p) && i < |p.sessions| && p.acquisition == Opening(p.sessions[i].id)
    ensures HasRoom(c, p.sessions[i]) && p.sessions[i].state != Starting
  {
  }

  lemma CountedKeeps(c: PoolConfig, p: Pool, i: nat, now: int)
    requires ValidConfig(c) && Inv(c, p) && p.acquisition == Idle
    requires i < |p.sessions| && HasRoom(c, p.sessions[i]) && p.sessions[i].state != Starting
    ensures Inv(c, Counted(c, p, i, now))
  {
    var s := Served(p.sessions[i], now);
    if c.retireAfterPages <= s.totalPagesServed {
      ServedAndRetired(c, p, i, s);
    } else {
      UpdateKeeps(c, p, i, s);
    }
  }

  /** The page that reaches the limit also retires the session. */
  lemma ServedAndRetired(c: PoolConfig, p: Pool, i: nat, s: PoolSession)
    requires Inv(c, p) && i < |p.sessions| && p.acquisition == Idle
    requires s.id == p.sessions[i].id && s.state == p.sessions[i].state && s.state != Starting
    requires 0 < s.activePages <= c.maxPagesPerSession && s.totalPagesServed == c.retireAfterPages
    ensures Inv(c, Retired(p.(sessions := p.sessions[i := s]), i))
  {
    var counted := p.(sessions := p.sessions[i := s]);
    if s.state == Active {
      assert Retired(counted, i) == p.(sessions := p.sessions[i := s.(state := Retiring)]);
      UpdateKeeps(c, p, i, s.(state := Retiring));
    } else {
      UpdateKeeps(c, p, i, s);
    }
  }

  lemma ConnectKeeps(c: PoolConfig, p: Pool, id: nat)
    requires ValidConfig(c) && Inv(c, p)
    ensures Inv(c, ConnectedTo(c, p, id))
    ensures Inv(c, ConnectionFailed(p, id))
  {
    var i := IndexOf(p.sessions, id);
    if i < |p.sessions| && p.sessions[i].state == Starting {
      UpdateKeeps(c, p, i, p.sessions[i].(state := Active));
      var q := p.(sessions := p.sessions[i := p.sessions[i].(state := Active)],
                  acquisition := if p.acquisition == Creating(id, Pending) then Creating(id, Created)
                                 else p.acquisition);
      assert Inv(c, q);
      DequeuedKeeps(c, q);
      FailedKeeps(c, p, i);
    }
  }

  lemma FailedKeeps(c: PoolConfig, p: Pool, i: nat)
    requires Inv(c, p) && i < |p.sessions| && p.sessions[i].state == Starting
    ensures Inv(c, ConnectionFailed(p, p.sessions[i].id))
  {
    var id := p.sessions[i].id;
    var q := p.(acquisition := if p.acquisition == Creating(id, Pending) then Creating(id, Failed) else p.acquisition);
    assert IndexOf(p.sessions, id) == i;
    assert Inv(c, q) && !Holds(q.acquisition, id);
    LeaveKeeps(c, q, i, p.sessions[i].(state := Closed));
    assert ConnectionFailed(p, id) == Leave(q, i, p.sessions[i].(state := Closed)).(creatingSession := false);
  }

  lemma LostKeeps(c: PoolConfig, p: Pool, id: nat)
    requires Inv(c, p)
    ensures Inv(c, Lost(c, p, id))
  {
    var i := IndexOf(p.sessions, id);
    var n := HandlesOf(p.handles, id);
    var q := p.(handles := HandlesWithout(p.handles, id));
    if i < |p.sessions| {
      if p.sessions[i].state != Starting {
        var last := Freed(p.sessions[i].(state := Closed), n);
        LeaveKeeps(c, q, i, last);
        DequeuedKeeps(c, Leave(q, i, last));
      }
    } else if p.detached.Some? && p.detached.value.id == id {
      DequeuedKeeps(c, q.(detached := Some(Freed(p.detached.value.(state := Closed), n))));
    } else {
      DequeuedKeeps(c, q);
    }
  }

  lemma ReleasedKeeps(c: PoolConfig, p: Pool, k: nat, now: int)
    requires Inv(c, p)
    ensures Inv(c, Released(c, p, k, now))
  {
    if k < |p.releasing| {
      GivenBackKeeps(c, p.(releasing := p.releasing[..k] + p.releasing[k + 1..]), p.releasing[k], now);
    }
  }

  lemma GivenBackKeeps(c: PoolConfig, p: Pool, id: nat, now: int)
    requires Inv(c, p)
    ensures Inv(c, GivenBack(c, p, id, now))
  {
    var i := IndexOf(p.sessions, id);
    if i < |p.sessions| {
      var s := Freed(p.sessions[i], 1).(lastActivity := now);
      if s.state == Retiring && s.activePages == 0 {
        LeaveKeeps(c, p, i, s.(state := Closed));
      } else {
        UpdateKeeps(c, p, i, s);
        DequeuedKeeps(c, p.(sessions := p.sessions[i := s]));
      }
    }
  }

  lemma MaintainedKeeps(c: PoolConfig, p: Pool, id: nat, now: int)
    requires Inv(c, p)
    ensures Inv(c, Maintained(c, p, id, now))
  {
    var i := IndexOf(p.sessions, id);
    if i < |p.sessions| {
      RetiredKeeps(c, p, i);
      if p.sessions[i].state == Retiring {
        LeaveKeeps(c, p, i, p.sessions[i].(state := Closed));
      }
    }
  }

  lemma {:induction false} MaintainedAllKeeps(c: PoolConfig, p: Pool, ids: seq<nat>, now: int)
    requires Inv(c, p)
    ensures Inv(c, MaintainedAll(c, p, ids, now))
  {
    if ids != [] {
      MaintainedAllKeeps(c, p, ids[..|ids| - 1], now);
      MaintainedKeeps(c, MaintainedAll(c, p, ids[..|ids| - 1], now), ids[|ids| - 1], now);
    }
  }

  lemma {:induction false} ForceReleasedKeeps(c: PoolConfig, p: Pool, hs: seq<PageHandle>, now: int)
    requires Inv(c, p)
    ensures Inv(c, ForceReleased(c, p, hs, now))
  {
    if hs != [] {
      ForceReleasedKeeps(c, p, hs[..|hs| - 1], now);
    }
  }

  lemma CreatedKeeps(c: PoolConfig, p: Pool)
    requires Inv(c, p) && p.acquisition.Creating? && p.acquisition.outcome == Created
    ensures Inv(c, p.(acquisition := Opening(p.acquisition.sessionId)))
  {
  }

  lemma ResumedKeeps(c: PoolConfig, p: Pool)
    requires Inv(c, p)
    ensures Inv(c, Resumed(c, p))
  {
    match p.acquisition
    case Creating(id, Created) => CreatedKeeps(c, p);
    case Woken(granted) =>
      var b := FindAvailable(c, p.sessions);
      if granted && b < |p.sessions| {
        TakeKeeps(c, p, b);
      } else {
        EndedKeeps(c, p);
      }
    case _ =>
  }

  lemma EndedKeepsIfOpening(c: PoolConfig, p: Pool)
    requires Inv(c, p)
    ensures p.acquisition.Opening? ==> Inv(c, Ended(p))
  {
  }

  lemma SlotTimedOutKeeps(c: PoolConfig, p: Pool, ticket: nat)
    requires Inv(c, p)
    ensures Inv(c, SlotTimedOut(p, ticket))
  {
  }

  lemma ReleasingKeeps(c: PoolConfig, p: Pool, h: PageHandle)
    requires Inv(c, p)
    ensures Inv(c, Releasing(p, h))
  {
  }

  lemma StepKeeps(c: PoolConfig, p: Pool, e: Event)
    requires ValidConfig(c) && Inv(c, p)
    ensures Inv(c, Step(c, p, e))
  {
    if e.Acquiring() {
      AcquisitionStepKeeps(c, p, e);
    } else {
      OtherStepKeeps(c, p, e);
    }
  }

  lemma AcquisitionStepKeeps(c: PoolConfig, p: Pool, e: Event)
    requires ValidConfig(c) && Inv(c, p) && e.Acquiring()
    ensures Inv(c, Step(c, p, e))
  {
    match e
    case AcquirePage(now) => CapacityKeeps(c, p, now);
    case Begin(now) => BegunKeeps(c, p, now);
    case PollTick(now) => PolledKeeps(c, p, now);
    case Resume(now) => ResumedKeeps(c, p);
    case Opened(now) => PageOpenedKeeps(c, p, now);
    case OpenFailed => EndedKeepsIfOpening(c, p);
  }

  lemma OtherStepKeeps(c: PoolConfig, p: Pool, e: Event)
    requires ValidConfig(c) && Inv(c, p) && !e.Acquiring()
    ensures Inv(c, Step(c, p, e))
  {
    match e
    case Connected(id) => ConnectKeeps(c, p, id);
    case ConnectFailed(id) => ConnectKeeps(c, p, id);
    case Disconnected(id) => LostKeeps(c, p, id);
    case ReleasePage(h) => ReleasingKeeps(c, p, h);
    case ContextClosed(k, now) => ReleasedKeeps(c, p, k, now);
    case BrowserClosed => BrowserClosedKeeps(c, p);
    case SlotTimer(ticket) => SlotTimedOutKeeps(c, p, ticket);
    case OneShot(now) => NextIdKeeps(c, p, p.handles + [PageHandle(p.nextId, p.nextId + 1, now)], p.nextId + 2);
    case Maintenance(now) => MaintenanceKeeps(c, p, now);
  }

  lemma BrowserClosedKeeps(c: PoolConfig, p: Pool)
    requires Inv(c, p)
    ensures Inv(c, Step(c, p, BrowserClosed))
  {
    if 0 < p.closing {
      var q := p.(closing := p.closing - 1);
      assert MapInv(c, q) && HoldInv(c, q) && QueueInv(q);
      DequeuedKeeps(c, q);
    }
  }

  lemma MaintenanceKeeps(c: PoolConfig, p: Pool, now: int)
    requires ValidConfig(c) && Inv(c, p)
    ensures Inv(c, MaintenancePass(c, p, now))
  {
    MaintainedAllKeeps(c, p, Ids(p.sessions), now);
    ForceReleasedKeeps(c, MaintainedAll(c, p, Ids(p.sessions), now), p.handles, now);
  }

  lemma {:induction false} WarmKeeps(c: PoolConfig, n: nat, now: int)
    requires ValidConfig(c) && n <= c.minSessions
    ensures Inv(c, Warm(EMPTY, n, now)) && Managed(Warm(EMPTY, n, now).sessions) == n
  {
    if n != 0 {
      WarmKeeps(c, n - 1, now);
      NewSessionKeeps(c, Warm(EMPTY, n - 1, now), now);
    }
  }

  lemma {:induction false} RunKeeps(c: PoolConfig, p: Pool, es: seq<Event>)
    requires ValidConfig(c) && Inv(c, p)
    ensures Inv(c, Run(c, p, es))
  {
    if es != [] {
      RunKeeps(c, p, es[..|es| - 1]);
      StepKeeps(c, Run(c, p, es[..|es| - 1]), es[|es| - 1]);
    }
  }

  // ---------------------------------------------------------------- no wake-up is lost

  ghost predicate NoneUsable(c: PoolConfig, ss: seq<PoolSession>) {
    forall i :: 0 <= i < |ss| ==> !Usable(c, ss[i])
  }

  /** Nobody waits while some session has room. */
  ghost predicate NoLostWakeUp(c: PoolConfig, p: Pool) {
    p.waiting != [] ==> NoneUsable(c, p.sessions)
  }

  lemma NoneUsableWithout(c: PoolConfig, ss: seq<PoolSession>, i: nat)
    requires NoneUsable(c, ss) && i < |ss|
    ensures NoneUsable(c, Without(ss, i))
  {
    var left := Without(ss, i);
    forall k | 0 <= k < |left| ensures left[k] == ss[if k < i then k else k + 1] {}
  }

  /** Whatever happened before: looking at the queue wakes its one waiter if a session has room. */
  lemma DequeuedWakes(c: PoolConfig, p: Pool)
    requires QueueInv(p)
    ensures NoLostWakeUp(c, Dequeued(c, p))
  {
  }

  lemma CapacityWakes(c: PoolConfig, p: Pool, now: int)
    requires NoLostWakeUp(c, p)
    ensures NoLostWakeUp(c, EnsuredCapacity(c, p, now))
  {
  }

  lemma AcquisitionWakes(c: PoolConfig, p: Pool, e: Event)
    requires Inv(c, p) && NoLostWakeUp(c, p) && e.Acquiring()
    ensures NoLostWakeUp(c, Step(c, p, e))
  {
    match e
    case AcquirePage(now) => CapacityWakes(c, p, now);
    case Opened(now) =>
      if p.acquisition.Opening? {
        assert PageOpened(c, p, now).waiting == [];
      }
    case _ =>
  }

  lemma RetiredWakes(c: PoolConfig, p: Pool, i: nat)
    requires NoLostWakeUp(c, p) && i < |p.sessions|
    ensures NoLostWakeUp(c, Retired(p, i))
  {
    if NoneUsable(c, p.sessions) {
      NoneUsableWithout(c, p.sessions, i);
    }
  }

  lemma MaintainedWakes(c: PoolConfig, p: Pool, id: nat, now: int)
    requires NoLostWakeUp(c, p)
    ensures NoLostWakeUp(c, Maintained(c, p, id, now))
  {
    var i := IndexOf(p.sessions, id);
    if i < |p.sessions| {
      RetiredWakes(c, p, i);
      if NoneUsable(c, p.sessions) {
        NoneUsableWithout(c, p.sessions, i);
      }
    }
  }

  lemma {:induction false} MaintainedAllWakes(c: PoolConfig, p: Pool, ids: seq<nat>, now: int)
    requires NoLostWakeUp(c, p)
    ensures NoLostWakeUp(c, MaintainedAll(c, p, ids, now))
  {
    if ids != [] {
      MaintainedAllWakes(c, p, ids[..|ids| - 1], now);
      MaintainedWakes(c, MaintainedAll(c, p, ids[..|ids| - 1], now), ids[|ids| - 1], now);
    }
  }

  lemma {:induction false} ForceReleasedWakes(c: PoolConfig, p: Pool, hs: seq<PageHandle>, now: int)
    requires NoLostWakeUp(c, p)
    ensures NoLostWakeUp(c, ForceReleased(c, p, hs, now))
  {
    if hs != [] {
      ForceReleasedWakes(c, p, hs[..|hs| - 1], now);
    }
  }

  lemma GivenBackWakes(c: PoolConfig, p: Pool, id: nat, now: int)
    requires QueueInv(p) && NoLostWakeUp(c, p)
    ensures NoLostWakeUp(c, GivenBack(c, p, id, now))
  {
    var i := IndexOf(p.sessions, id);
    if i < |p.sessions| {
      DequeuedWakes(c, p.(sessions := p.sessions[i := Freed(p.sessions[i], 1).(lastActivity := now)]));
      if NoneUsable(c, p.sessions) {
        NoneUsableWithout(c, p.sessions, i);
      }
    }
  }

  lemma LostWakes(c: PoolConfig, p: Pool, id: nat)
    requires QueueInv(p) && NoLostWakeUp(c, p)
    ensures NoLostWakeUp(c, Lost(c, p, id))
  {
    var q := p.(handles := HandlesWithout(p.handles, id));
    var i, n := IndexOf(p.sessions, id), HandlesOf(p.handles, id);
    if i < |p.sessions| {
      DequeuedWakes(c, Leave(q, i, Freed(p.sessions[i].(state := Closed), n)));
    } else if p.detached.Some? && p.detached.value.id == id {
      DequeuedWakes(c, q.(detached := Some(Freed(p.detached.value.(state := Closed), n))));
    } else {
      DequeuedWakes(c, q);
    }
  }

  lemma ConnectWakes(c: PoolConfig, p: Pool, id: nat)
    requires Inv(c, p) && NoLostWakeUp(c, p)
    ensures NoLostWakeUp(c, ConnectedTo(c, p, id)) && NoLostWakeUp(c, ConnectionFailed(p, id))
  {
    var i := IndexOf(p.sessions, id);
    if i < |p.sessions| && NoneUsable(c, p.sessions) {
      NoneUsableWithout(c, p.sessions, i);
    }
  }

  lemma OtherWakes(c: PoolConfig, p: Pool, e: Event)
    requires Inv(c, p) && NoLostWakeUp(c, p) && !e.Acquiring()
    ensures NoLostWakeUp(c, Step(c, p, e))
  {
    match e
    case Connected(id) => ConnectWakes(c, p, id);
    case ConnectFailed(id) => ConnectWakes(c, p, id);
    case Disconnected(id) => LostWakes(c, p, id);
    case ContextClosed(k, now) =>
      if k < |p.releasing| {
        GivenBackWakes(c, p.(releasing := p.releasing[..k] + p.releasing[k + 1..]), p.releasing[k], now);
      }
    case BrowserClosed =>
      if 0 < p.closing { DequeuedWakes(c, p.(closing := p.closing - 1)); }
    case Maintenance(now) =>
      MaintainedAllWakes(c, p, Ids(p.sessions), now);
      ForceReleasedWakes(c, MaintainedAll(c, p, Ids(p.sessions), now), p.handles, now);
    case _ =>
  }

  lemma {:induction false} RunWakes(c: PoolConfig, p: Pool, es: seq<Event>)
    requires ValidConfig(c) && Inv(c, p) && NoLostWakeUp(c, p)
    ensures NoLostWakeUp(c, Run(c, p, es))
  {
    if es != [] {
      var before, e := Run(c, p, es[..|es| - 1]), es[|es| - 1];
      RunWakes(c, p, es[..|es| - 1]);
      RunKeeps(c, p, es[..|es| - 1]);
      if e.Acquiring() {
        AcquisitionWakes(c, before, e);
      } else {
        OtherWakes(c, before, e);
      }
    }
  }

  /** Pool capacity. After `start` and any interleaving of acquisitions, connections, failures,
      disconnects, releases, timers and maintenance: active and starting sessions stay within
      maxSessions, every session's pages within maxPagesPerSession and its total within
      retireAfterPages, at most one waiter is queued, and none while a session has room, and the
      session the running acquisition is opening a page on, even one that has left the map, has room
      for that page. */
  lemma PoolCapacity(c: PoolConfig, es: seq<Event>, start: int)
    requires ValidConfig(c)
    ensures var p := Run(c, Warm(EMPTY, c.minSessions, start), es);
            && Managed(p.sessions) <= c.maxSessions
            && (forall i :: 0 <= i < |p.sessions| ==>
                  && p.sessions[i].activePages <= c.maxPagesPerSession
                  && p.sessions[i].totalPagesServed <= c.retireAfterPages)
            && |p.waiting| <= 1
            && (forall i :: 0 <= i < |p.sessions| && Usable(c, p.sessions[i]) ==> p.waiting == [])
            && (forall i :: 0 <= i < |p.sessions| && p.acquisition == Opening(p.sessions[i].id) ==>
                HasRoom(c, p.sessions[i]))
            && (p.detached.Some? ==> HasRoom(c, p.detached.value))
  {
    WarmKeeps(c, c.minSessions, start);
    RunKeeps(c, Warm(EMPTY, c.minSessions, start), es);
    WarmQueue(c.minSessions, start);
    RunWakes(c, Warm(EMPTY, c.minSessions, start), es);
  }

  lemma {:induction false} WarmQueue(n: nat, now: int)
    ensures Warm(EMPTY, n, now).waiting == []
  {
    if n != 0 {
      WarmQueue(n - 1, now);
    }
  }

  // ---------------------------------------------------------------- what a maintenance pass retires

  predicate Expired(c: PoolConfig, s: PoolSession, now: int) {
    s.state == Active && c.retireAfterMs <= now - s.createdAt
  }

  /** The active sessions past their lifetime. */
  function CountExpired(c: PoolConfig, ss: seq<PoolSession>, now: int): nat {
    if ss == [] then 0 else
      CountExpired(c, ss[..|ss| - 1], now) + if Expired(c, ss[|ss| - 1], now) then 1 else 0
  }

  lemma {:induction false} ExpiredUpdate(c: PoolConfig, ss: seq<PoolSession>, i: nat, s: PoolSession, now: int)
    requires i < |ss|
    ensures CountExpired(c, ss[i := s], now) ==
            CountExpired(c, ss, now) - (if Expired(c, ss[i], now) then 1 else 0) + if Expired(c, s, now) then 1 else 0
  {
    var n := |ss| - 1;
    if i == n {
      assert ss[i := s][..n] == ss[..n];
    } else {
      ExpiredUpdate(c, ss[..n], i, s, now);
      assert ss[i := s][..n] == ss[..n][i := s];
    }
  }

  lemma {:induction false} ExpiredWithout(c: PoolConfig, ss: seq<PoolSession>, i: nat, now: int)
    requires i < |ss|
    ensures CountExpired(c, Without(ss, i), now) == CountExpired(c, ss, now) - if Expired(c, ss[i], now) then 1 else 0
  {
    var n := |ss| - 1;
    if i == n {
      assert Without(ss, i) == ss[..n];
    } else {
      ExpiredWithout(c, ss[..n], i, now);
      assert Without(ss, i)[..n - 1] == Without(ss[..n], i);
    }
  }

  lemma RetiredCounts(c: PoolConfig, p: Pool, i: nat, now: int)
    requires i < |p.sessions| && p.sessions[i].state == Active
    ensures CountByState(Retired(p, i).sessions, Active) == CountByState(p.sessions, Active) - 1
    ensures CountExpired(c, Retired(p, i).sessions, now) ==
            CountExpired(c, p.sessions, now) - if Expired(c, p.sessions[i], now) then 1 else 0
  {
    CountWithout(p.sessions, i, Active);
    ExpiredWithout(c, p.sessions, i, now);
    var s := p.sessions[i].(state := Retiring);
    CountUpdate(p.sessions, i, s, Active);
    ExpiredUpdate(c, p.sessions, i, s, now);
  }

  /** Looking at one session takes an active one away only if it was past its lifetime, or idle
      while more than minSessions were active. */
  lemma MaintainedKeepsMinimum(c: PoolConfig, p: Pool, id: nat, now: int)
    ensures var q := Maintained(c, p, id, now);
            && Min(CountByState(p.sessions, Active), c.minSessions) + CountExpired(c, q.sessions, now) <=
               CountByState(q.sessions, Active) + CountExpired(c, p.sessions, now)
            && CountExpired(c, q.sessions, now) <= CountExpired(c, p.sessions, now)
  {
    var i := IndexOf(p.sessions, id);
    if i < |p.sessions| {
      if p.sessions[i].state == Active {
        RetiredCounts(c, p, i, now);
      } else {
        CountWithout(p.sessions, i, Active);
        ExpiredWithout(c, p.sessions, i, now);
      }
    }
  }

  lemma {:induction false} PassKeepsMinimum(c: PoolConfig, p: Pool, ids: seq<nat>, now: int)
    ensures var q := MaintainedAll(c, p, ids, now);
            && Min(CountByState(p.sessions, Active), c.minSessions) + CountExpired(c, q.sessions, now) <=
               CountByState(q.sessions, Active) + CountExpired(c, p.sessions, now)
            && CountExpired(c, q.sessions, now) <= CountExpired(c, p.sessions, now)
  {
    if ids != [] {
      PassKeepsMinimum(c, p, ids[..|ids| - 1], now);
      MaintainedKeepsMinimum(c, MaintainedAll(c, p, ids[..|ids| - 1], now), ids[|ids| - 1], now);
    }
  }

  lemma {:induction false} ForceReleaseKeepsSessions(c: PoolConfig, p: Pool, hs: seq<PageHandle>, now: int)
    ensures ForceReleased(c, p, hs, now).sessions == p.sessions
  {
    if hs != [] {
      ForceReleaseKeepsSessions(c, p, hs[..|hs| - 1], now);
    }
  }

  ghost predicate DistinctSessions(ss: seq<PoolSession>) {
    forall i, j :: 0 <= i < j < |ss| ==> ss[i].id != ss[j].id
  }

  lemma WithoutMembers(ss: seq<PoolSession>, i: nat)
    requires DistinctSessions(ss) && i < |ss|
    ensures forall s :: s in Without(ss, i) ==> s in ss && s.id != ss[i].id
  {
    var left := Without(ss, i);
    forall s | s in left ensures s in ss && s.id != ss[i].id {
      var k :| 0 <= k < |left| && left[k] == s;
      assert s == ss[if k < i then k else k + 1];
    }
  }

  /** The active sessions a look leaves were there, and the one looked at is not expired. */
  lemma MaintainedSessions(c: PoolConfig, p: Pool, id: nat, now: int)
    requires DistinctSessions(p.sessions)
    ensures forall s :: s in Maintained(c, p, id, now).sessions && Expired(c, s, now) ==> s in p.sessions && s.id != id
  {
    var i := IndexOf(p.sessions, id);
    if i < |p.sessions| {
      WithoutMembers(p.sessions, i);
    }
  }

  /** The expired sessions left were there before, and are none of those looked at. */
  ghost predicate ExpiredStay(c: PoolConfig, left: seq<PoolSession>, before: seq<PoolSession>, looked: seq<nat>,
                              now: int)
  {
    forall s :: s in left && Expired(c, s, now) ==> s in before && s.id !in looked
  }

  lemma ExpiredStayTwice(c: PoolConfig, a: seq<PoolSession>, b: seq<PoolSession>, before: seq<PoolSession>,
                         looked: seq<nat>, id: nat, now: int)
    requires ExpiredStay(c, a, b, [id], now) && ExpiredStay(c, b, before, looked, now)
    ensures ExpiredStay(c, a, before, looked + [id], now)
  {
    forall s | s in a && Expired(c, s, now) ensures s in before && s.id !in looked + [id] {
      assert s in b && s.id !in [id];
    }
  }

  lemma {:induction false} PassSessions(c: PoolConfig, p: Pool, ids: seq<nat>, now: int)
    requires ValidConfig(c) && Inv(c, p)
    ensures ExpiredStay(c, MaintainedAll(c, p, ids, now).sessions, p.sessions, ids, now)
  {
    if ids != [] {
      var earlier, id := ids[..|ids| - 1], ids[|ids| - 1];
      var q := MaintainedAll(c, p, earlier, now);
      PassSessions(c, p, earlier, now);
      assert ExpiredStay(c, Maintained(c, q, id, now).sessions, q.sessions, [id], now) by {
        MaintainedAllKeeps(c, p, earlier, now);
        MaintainedSessions(c, q, id, now);
      }
      ExpiredStayTwice(c, Maintained(c, q, id, now).sessions, q.sessions, p.sessions, earlier, id, now);
      assert ids == earlier + [id];
    }
  }

  lemma IdsOfMembers(ss: seq<PoolSession>)
    ensures forall s :: s in ss ==> s.id in Ids(ss)
  {
    forall s | s in ss ensures s.id in Ids(ss) {
      var k :| 0 <= k < |ss| && ss[k] == s;
      assert Ids(ss)[k] in Ids(ss);
    }
  }

  lemma {:induction false} NoneExpired(c: PoolConfig, ss: seq<PoolSession>, now: int)
    requires forall s :: s in ss ==> !Expired(c, s, now)
    ensures CountExpired(c, ss, now) == 0
  {
    if ss != [] {
      NoneExpired(c, ss[..|ss| - 1], now);
    }
  }

  /** A maintenance pass retires every active session past its lifetime, and idle ones only down to
      minSessions: of those within their lifetime at least as many stay active as make up, with the
      expired ones, minSessions or all there were. */
  lemma MaintenanceRetires(c: PoolConfig, p: Pool, now: int)
    requires ValidConfig(c) && Inv(c, p)
    ensures var q := Step(c, p, Maintenance(now));
            && CountExpired(c, q.sessions, now) == 0
            && Min(CountByState(p.sessions, Active), c.minSessions) <=
               CountByState(q.sessions, Active) + CountExpired(c, p.sessions, now)
  {
    var ids := Ids(p.sessions);
    var q := MaintainedAll(c, p, ids, now);
    assert CountExpired(c, q.sessions, now) == 0 by {
      PassSessions(c, p, ids, now);
      IdsOfMembers(p.sessions);
      NoneExpired(c, q.sessions, now);
    }
    PassKeepsMinimum(c, p, ids, now);
    ForceReleaseKeepsSessions(c, q, p.handles, now);
  }

  /** From any state whatever: idle retirement leaves at least minSessions active, or as many as there
      were, once the sessions that retired for their age are counted in. */
  lemma IdleRetirementKeepsMinimum(c: PoolConfig, p: Pool, now: int)
    ensures Min(CountByState(p.sessions, Active), c.minSessions) <=
            CountByState(Step(c, p, Maintenance(now)).sessions, Active) + CountExpired(c, p.sessions, now)
  {
    var q := MaintainedAll(c, p, Ids(p.sessions), now);
    assert Step(c, p, Maintenance(now)).sessions == q.sessions by { ForceReleaseKeepsSessions(c, q, p.handles, now); }
    PassKeepsMinimum(c, p, Ids(p.sessions), now);
  }

  // ---------------------------------------------------------------- the pool object

  /** One method per stretch of code between two awaits. */
  class SessionPool {
    const config: PoolConfig
    var sessions: seq<PoolSession>
    var detached: Option<PoolSession>
    var activeHandles: seq<PageHandle>
    var queue: seq<nat>
    var creatingSession: bool
    var acquisition: Acquisition
    var pending: nat
    var releasing: seq<nat>
    var closing: nat
    var nextId: nat

    constructor (config: PoolConfig)
      ensures this.config == config && View() == EMPTY
    {
      this.config := config;
      sessions, detached, activeHandles, queue, creatingSession := [], None, [], [], false;
      acquisition, pending, releasing, closing, nextId := Idle, 0, [], 0, 0;
    }

    function View(): Pool
      reads this
    {
      Pool(sessions, detached, activeHandles, queue, creatingSession, acquisition, pending, releasing, closing, nextId)
    }

    /** The warm-up of `start`, up to its first await. */
    method Start(now: int)
      modifies this
      ensures View() == Warm(old(View()), config.minSessions, now)
    {
      ghost var before := View();
      for i := 0 to config.minSessions
        invariant View() == Warm(before, i, now)
      {
        var id := CreateSession(now);
      }
    }

    method FindAvailableSession() returns (best: nat)
      ensures best == FindAvailable(config, sessions)
    {
      best := |sessions|;
      for i := 0 to |sessions|
        invariant best == if FindAvailable(config, sessions[..i]) == i then |sessions|
                  else FindAvailable(config, sessions[..i])
      {
        assert sessions[..i + 1][..i] == sessions[..i];
        if sessions[i].state == Active && sessions[i].activePages < config.maxPagesPerSession {
          if best == |sessions| || sessions[i].activePages < sessions[best].activePages {
            best := i;
          }
        }
      }
      assert sessions[..|sessions|] == sessions;
    }

    method CountSessionsByState(st: SessionState) returns (count: nat)
      ensures count == CountByState(sessions, st)
    {
      count := 0;
      for i := 0 to |sessions|
        invariant count == CountByState(sessions[..i], st)
      {
        assert sessions[..i + 1][..i] == sessions[..i];
        if sessions[i].state == st {
          count := count + 1;
        }
      }
      assert sessions[..|sessions|] == sessions;
    }

    method CountAvailableSlots() returns (slots: int)
      ensures slots == AvailableSlots(config, sessions)
    {
      slots := 0;
      for i := 0 to |sessions|
        invariant slots == AvailableSlots(config, sessions[..i])
      {
        assert sessions[..i + 1][..i] == sessions[..i];
        if sessions[i].state == Active {
          slots := slots + (config.maxPagesPerSession - sessions[i].activePages);
        }
      }
      assert sessions[..|sessions|] == sessions;
    }

    method CreateSession(now: int) returns (id: nat)
      modifies this
      ensures View() == WithNewSession(old(View()), now) && id == old(nextId)
    {
      creatingSession := true;
      id := nextId;
      nextId := nextId + 1;
      sessions := sessions + [Fresh(id, now)];
    }

    method EnsureCapacity(now: int)
      modifies this
      ensures View() == EnsuredCapacity(config, old(View()), now)
    {
      if creatingSession {
        return;
      }
      var activeSessions := CountSessionsByState(Active);
      var startingSessions := CountSessionsByState(Starting);
      if activeSessions + startingSessions >= config.maxSessions {
        return;
      }
      var availableSlots := CountAvailableSlots();
      if availableSlots < ScaleThreshold(config) {
        var id := CreateSession(now);
      }
    }

    method AcquirePage(now: int)
      modifies this
      ensures View() == Step(config, old(View()), Event.AcquirePage(now))
    {
      EnsureCapacity(now);
      pending := pending + 1;
    }

    /** doAcquirePage begins, once the acquisition before it has ended. */
    method DoAcquirePage(now: int)
      modifies this
      ensures View() == Step(config, old(View()), Begin(now))
    {
      if acquisition != Idle || pending == 0 {
        return;
      }
      pending := pending - 1;
      var session := FindAvailableSession();
      if session < |sessions| {
        acquisition := Opening(sessions[session].id);
      } else if creatingSession {
        acquisition := Polling(0);
      } else {
        CreateOrWaitForSlot(now);
      }
    }

    method Poll(now: int)
      modifies this
      ensures View() == Step(config, old(View()), PollTick(now))
    {
      if !acquisition.Polling? {
        return;
      }
      var session := FindAvailableSession();
      if session < |sessions| {
        acquisition := Opening(sessions[session].id);
      } else if acquisition.tries + 1 < 20 {
        acquisition := Polling(acquisition.tries + 1);
      } else {
        CreateOrWaitForSlot(now);
      }
    }

    method CreateOrWaitForSlot(now: int)
      modifies this
      ensures View() == CreateOrWait(config, old(View()), now)
    {
      var active := CountSessionsByState(Active);
      var starting := CountSessionsByState(Starting);
      if active + starting < config.maxSessions {
        var id := CreateSession(now);
        acquisition := Creating(id, Pending);
      } else {
        queue := queue + [nextId];
        acquisition := WaitingSlot(nextId);
        nextId := nextId + 1;
      }
    }

    method ResumeAcquisition(now: int)
      modifies this
      ensures View() == Step(config, old(View()), Resume(now))
    {
      match acquisition {
        case Creating(id, Created) => acquisition := Opening(id);
        case Creating(id, Failed) => acquisition := Idle;
        case Woken(granted) =>
          var session := FindAvailableSession();
          if granted && session < |sessions| {
            acquisition := Opening(sessions[session].id);
          } else {
            acquisition := Idle;
          }
        case _ =>
      }
    }

    /** The end of doAcquirePage, after the context and its page have opened. */
    method FinishAcquisition(now: int)
      modifies this
      ensures View() == Step(config, old(View()), Opened(now))
    {
      if !acquisition.Opening? {
        return;
      }
      var id := acquisition.sessionId;
      acquisition, detached := Idle, None;
      activeHandles := activeHandles + [PageHandle(nextId, id, now)];
      nextId := nextId + 1;
      assert View() == HandedOut(old(View()), id, now);
      CountPage(IndexOf(sessions, id), now);
      EnsureCapacity(now);
    }

    method CountPage(i: nat, now: int)
      requires i <= |sessions|
      modifies this
      ensures View() == if i == |old(sessions)| then old(View()) else Counted(config, old(View()), i, now)
    {
      if i < |sessions| {
        sessions := sessions[i := Served(sessions[i], now)];
        if sessions[i].totalPagesServed >= config.retireAfterPages {
          RetireSession(i);
        }
      }
    }

    method AbandonAcquisition()
      modifies this
      ensures View() == Step(config, old(View()), OpenFailed)
    {
      if acquisition.Opening? {
        acquisition, detached := Idle, None;
      }
    }

    method RetireSession(i: nat)
      requires i < |sessions|
      modifies this
      ensures View() == Retired(old(View()), i)
    {
      if sessions[i].state != Active {
        return;
      }
      sessions := sessions[i := sessions[i].(state := Retiring)];
      if sessions[i].activePages == 0 {
        CloseSession(i);
      }
    }

    method CloseSession(i: nat)
      requires i < |sessions|
      modifies this
      ensures View() == Leave(old(View()), i, old(sessions)[i].(state := Closed))
    {
      var last := sessions[i].(state := Closed);
      if Holds(acquisition, last.id) {
        detached := Some(last);
      }
      sessions := Without(sessions, i);
    }

    method OnConnected(id: nat)
      modifies this
      ensures View() == Step(config, old(View()), Connected(id))
    {
      var i := IndexOf(sessions, id);
      if i == |sessions| || sessions[i].state != Starting {
        return;
      }
      sessions := sessions[i := sessions[i].(state := Active)];
      if acquisition == Creating(id, Pending) {
        acquisition := Creating(id, Created);
      }
      DequeueNext();
      creatingSession := false;
    }

    method OnConnectFailed(id: nat)
      modifies this
      ensures View() == Step(config, old(View()), ConnectFailed(id))
    {
      var i := IndexOf(sessions, id);
      if i == |sessions| || sessions[i].state != Starting {
        return;
      }
      sessions := Without(sessions, i);
      if acquisition == Creating(id, Pending) {
        acquisition := Creating(id, Failed);
      }
      creatingSession := false;
    }

    /** Removes the handles of one session and counts them. */
    method RemoveHandles(id: nat) returns (removed: nat)
      modifies this`activeHandles
      ensures activeHandles == HandlesWithout(old(activeHandles), id) && removed == HandlesOf(old(activeHandles), id)
    {
      var kept := [];
      removed := 0;
      for i := 0 to |activeHandles|
        invariant activeHandles == old(activeHandles)
        invariant kept == HandlesWithout(activeHandles[..i], id) && removed == HandlesOf(activeHandles[..i], id)
      {
        assert activeHandles[..i + 1][..i] == activeHandles[..i];
        if activeHandles[i].sessionId == id {
          removed := removed + 1;
        } else {
          kept := kept + [activeHandles[i]];
        }
      }
      assert activeHandles[..|activeHandles|] == activeHandles;
      activeHandles := kept;
    }

    method OnDisconnected(id: nat)
      modifies this
      ensures View() == Lost(config, old(View()), id)
    {
      var i := IndexOf(sessions, id);
      if i < |sessions| && sessions[i].state == Starting {
        return;
      }
      var removed := RemoveHandles(id);
      if i < |sessions| {
        CloseLost(i, removed);
      } else if detached.Some? && detached.value.id == id {
        detached := Some(Freed(detached.value.(state := Closed), removed));
      }
      DequeueNext();
    }

    method CloseLost(i: nat, removed: nat)
      requires i < |sessions|
      modifies this`sessions, this`detached
      ensures View() == Leave(old(View()), i, Freed(old(sessions)[i].(state := Closed), removed))
    {
      var last := Freed(sessions[i].(state := Closed), removed);
      sessions, detached := Without(sessions, i), if Holds(acquisition, last.id) then Some(last) else detached;
    }

    method DeleteHandle(id: nat)
      modifies this`activeHandles
      ensures activeHandles == DropHandle(old(activeHandles), id)
    {
      activeHandles := DropHandle(activeHandles, id);
    }

    /** releasePage up to the closing of the context. */
    method ReleasePage(handle: PageHandle)
      modifies this
      ensures View() == Step(config, old(View()), Event.ReleasePage(handle))
    {
      DeleteHandle(handle.id);
      releasing := releasing + [handle.sessionId];
    }

    /** The rest of releasePage. */
    method FinishRelease(k: nat, now: int)
      modifies this
      ensures View() == Step(config, old(View()), ContextClosed(k, now))
    {
      if k >= |releasing| {
        return;
      }
      var id := releasing[k];
      releasing := releasing[..k] + releasing[k + 1..];
      GiveBack(id, now);
    }

    method GiveBack(id: nat, now: int)
      modifies this
      ensures View() == GivenBack(config, old(View()), id, now)
    {
      var i := IndexOf(sessions, id);
      if i == |sessions| {
        return;
      }
      var freed := Freed(sessions[i], 1).(lastActivity := now);
      if freed.state == Retiring && freed.activePages == 0 {
        var last := freed.(state := Closed);
        sessions, detached := Without(sessions, i), if Holds(acquisition, id) then Some(last) else detached;
        closing := closing + 1;
      } else {
        sessions := sessions[i := freed];
        DequeueNext();
      }
    }

    method OnBrowserClosed()
      modifies this
      ensures View() == Step(config, old(View()), BrowserClosed)
    {
      if 0 < closing {
        closing := closing - 1;
        DequeueNext();
      }
    }

    method OnSlotTimer(ticket: nat)
      modifies this
      ensures View() == Step(config, old(View()), SlotTimer(ticket))
    {
      if ticket in queue {
        queue := Remove(queue, ticket);
        if acquisition == WaitingSlot(ticket) {
          acquisition := Woken(false);
        }
      }
    }

    method DequeueNext()
      modifies this
      ensures View() == Dequeued(config, old(View()))
    {
      if queue == [] {
        return;
      }
      var available := FindAvailableSession();
      if available == |sessions| {
        return;
      }
      queue := queue[1..];
      acquisition := Woken(true);
    }

    method MaintainSession(id: nat, now: int)
      modifies this
      ensures View() == Maintained(config, old(View()), id, now)
    {
      var i := IndexOf(sessions, id);
      if i == |sessions| {
        return;
      }
      var session := sessions[i];
      if session.state == Active && now - session.createdAt >= config.retireAfterMs {
        RetireSession(i);
        return;
      }
      if session.state == Active && session.activePages == 0 && now - session.lastActivity >= config.idleTimeoutMs {
        var activeSessions := CountSessionsByState(Active);
        if activeSessions > config.minSessions {
          RetireSession(i);
          return;
        }
      }
      if session.state == Retiring && session.activePages == 0 {
        CloseSession(i);
      }
    }

    method RunMaintenance(now: int)
      modifies this
      ensures View() == Step(config, old(View()), Maintenance(now))
    {
      var handles := activeHandles;
      MaintainSessions(now);
      ForceRelease(handles, now);
    }

    method MaintainSessions(now: int)
      modifies this
      ensures View() == MaintainedAll(config, old(View()), Ids(old(sessions)), now)
    {
      ghost var before := View();
      var snapshot := Ids(sessions);
      for i := 0 to |snapshot|
        invariant View() == MaintainedAll(config, before, snapshot[..i], now)
      {
        assert snapshot[..i + 1][..i] == snapshot[..i];
        MaintainSession(snapshot[i], now);
      }
      assert snapshot[..|snapshot|] == snapshot;
    }

    method ForceRelease(handles: seq<PageHandle>, now: int)
      modifies this
      ensures View() == ForceReleased(config, old(View()), handles, now)
    {
      ghost var maintained := View();
      for i := 0 to |handles|
        invariant View() == ForceReleased(config, maintained, handles[..i], now)
      {
        assert handles[..i + 1][..i] == handles[..i];
        if now - handles[i].acquiredAt >= config.pageTimeoutMs * 2 {
          ReleasePage(handles[i]);
        }
      }
      assert handles[..|handles|] == handles;
    }
  }
}
