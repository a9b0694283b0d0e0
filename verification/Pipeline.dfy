/** The CDP pipeline (src/pipeline/pipeline.ts) and its internal ids (src/pipeline/id-space.ts).
    Parsing and printing are inverse on messages. A plugin hook that calls back into the pipeline
    is that call as an event of its own. */
module Pipeline {
  import opened Basics

  const INTERNAL_ID_BASE: int := 0x4000_0000

  /** One CDP frame. `id` is present when the field is a number; a reply may carry an error. */
  datatype Message = Message(id: Option<int>, body: string, failed: bool)

  /** What a socket carries: a binary frame, text that does not parse, or a message. */
  datatype Data = Binary(payload: string) | Opaque(text: string) | Json(msg: Message)

  datatype Settlement = Settlement(id: int, resolved: bool)

  // ---------------------------------------------------------------- internal ids

  /** `pending` in insertion order; `settled` is the history of answered promises. */
  datatype Ids = Ids(next: int, pending: seq<int>, settled: seq<Settlement>)

  const NO_IDS := Ids(INTERNAL_ID_BASE, [], [])

  function Drop(pending: seq<int>, id: int): seq<int> {
    if pending == [] then [] else if pending[0] == id then pending[1..] else [pending[0]] + Drop(pending[1..], id)
  }

  function Allocated(s: Ids): Ids {
    s.(next := s.next + 1, pending := s.pending + [s.next])
  }

  function SettledWith(s: Ids, id: int, resolved: bool): Ids {
    if id in s.pending then s.(pending := Drop(s.pending, id), settled := s.settled + [Settlement(id, resolved)]) else s
  }

  function Rejections(pending: seq<int>): (r: seq<Settlement>)
    ensures |r| == |pending| && forall i :: 0 <= i < |r| ==> r[i] == Settlement(pending[i], false)
  {
    seq(|pending|, i requires 0 <= i < |pending| => Settlement(pending[i], false))
  }

  function AllRejected(s: Ids): Ids {
    s.(pending := [], settled := s.settled + Rejections(s.pending))
  }

  class InternalIdSpace {
    var next: int
    var pending: seq<int>
    var settled: seq<Settlement>

    constructor ()
      ensures View() == NO_IDS
    {
      next, pending, settled := INTERNAL_ID_BASE, [], [];
    }

    function View(): Ids
      reads this
    {
      Ids(next, pending, settled)
    }

    method Allocate() returns (id: int)
      modifies this
      ensures View() == Allocated(old(View())) && id == old(next)
    {
      id := next;
      next := next + 1;
      pending := pending + [id];
    }

    static predicate IsInternal(id: int) {
      id >= INTERNAL_ID_BASE
    }

    predicate Owns(id: int)
      reads this
    {
      id in pending
    }

    method Settle(id: int, resolved: bool) returns (known: bool)
      modifies this
      ensures View() == SettledWith(old(View()), id, resolved) && known == (id in old(pending))
    {
      if id !in pending {
        return false;
      }
      pending := Drop(pending, id);
      settled := settled + [Settlement(id, resolved)];
      return true;
    }

    method RejectAll()
      modifies this
      ensures View() == AllRejected(old(View()))
    {
      ghost var given := settled;
      for i := 0 to |pending|
        invariant pending == old(pending) && next == old(next)
        invariant settled == given + Rejections(pending)[..i]
      {
        settled := settled + [Settlement(pending[i], false)];
      }
      pending := [];
    }
  }

  // ---------------------------------------------------------------- hooks

  /** A response hook rewrites the message or leaves it alone; a hook that throws leaves it alone. */
  type ResponseHook = Message -> Option<Message>

  datatype CommandResult = Forward | Discard | Rewrite(msg: Message)

  type CommandHook = Message -> CommandResult

  function Rewritten(hooks: seq<ResponseHook>, msg: Message): Message {
    if hooks == [] then msg else
      var before := Rewritten(hooks[..|hooks| - 1], msg);
      hooks[|hooks| - 1](before).GetOr(before)
  }

  /** The command after the hooks; None when one of them drops it. */
  function Commanded(hooks: seq<CommandHook>, msg: Message): Option<Message> {
    if hooks == [] then Some(msg) else
      match hooks[0](msg)
      case Forward => Commanded(hooks[1..], msg)
      case Discard => None
      case Rewrite(m) => Commanded(hooks[1..], m)
  }

  ghost predicate KeepIds(hooks: seq<ResponseHook>) {
    forall i, m :: 0 <= i < |hooks| && hooks[i](m).Some? ==> hooks[i](m).value.id == m.id
  }

  // ---------------------------------------------------------------- the pipeline's state

  /** Phase of the shutdown: not begun, waiting for plugin `plugin`'s end hook, all hooks over, done. */
  datatype EndPhase = Open | Ending(plugin: nat) | HooksOver | Finished

  datatype StartPhase = NotStarted | Starting | Ready | StartFailed

  /** `toClient` and `toUpstream` are what was sent; `ended` the plugins whose end hook was
      invoked, in order. `endHooks[i]` says whether plugin i has an end hook. */
  datatype Pipe = Pipe(
    endHooks: seq<bool>,
    ids: Ids,
    start: StartPhase,
    closed: bool,
    hasClient: bool,
    toClient: seq<Data>,
    toUpstream: seq<Data>,
    endPhase: EndPhase,
    ended: seq<nat>)

  function Initial(endHooks: seq<bool>): Pipe {
    Pipe(endHooks, NO_IDS, NotStarted, false, false, [], [], Open, [])
  }

  /** The last plugin below `k` that has an end hook. */
  function LastHook(endHooks: seq<bool>, k: nat): (r: Option<nat>)
    requires k <= |endHooks|
    ensures r.Some? ==> r.value < k && endHooks[r.value] && forall j :: r.value < j < k ==> !endHooks[j]
    ensures r.None? ==> forall j :: 0 <= j < k ==> !endHooks[j]
  {
    if k == 0 then None else if endHooks[k - 1] then Some(k - 1) else LastHook(endHooks, k - 1)
  }

  /** runOnSessionEnd goes on below plugin `k`. */
  function Advanced(p: Pipe, k: nat): Pipe
    requires k <= |p.endHooks|
  {
    var next := LastHook(p.endHooks, k);
    if next.Some? then p.(endPhase := Ending(next.value), ended := p.ended + [next.value])
    else p.(endPhase := HooksOver)
  }

  function Finalized(p: Pipe): Pipe {
    if p.closed then p else Advanced(p.(closed := true), |p.endHooks|)
  }

  function ToClient(p: Pipe, d: Data): Pipe {
    if p.hasClient then p.(toClient := p.toClient + [d]) else p
  }

  function FromUpstreamOf(p: Pipe, d: Data, congested: bool, hooks: seq<ResponseHook>, dropped: bool): Pipe {
    if d.Binary? then ToClient(p, d)
    else if p.hasClient && congested then p
    else if d.Opaque? then ToClient(p, d)
    else if d.msg.id.Some? then
      var id := d.msg.id.value;
      if id in p.ids.pending then p.(ids := SettledWith(p.ids, id, !d.msg.failed))
      else if InternalIdSpace.IsInternal(id) then p
      else ToClient(p, Json(Rewritten(hooks, d.msg)))
    else if dropped then p
    else ToClient(p, d)
  }

  function FromClientOf(p: Pipe, d: Data, hooks: seq<CommandHook>): Pipe {
    if !d.Json? then p.(toUpstream := p.toUpstream + [d]) else
      var command := Commanded(hooks, d.msg);
      if command.None? then p else p.(toUpstream := p.toUpstream + [Json(command.value)])
  }

  /** sendInternal: a send that throws settles the call at once. */
  function Sent(p: Pipe, body: string, sendOk: bool): Pipe {
    var id := p.ids.next;
    var ids := Allocated(p.ids);
    if sendOk then p.(ids := ids, toUpstream := p.toUpstream + [Json(Message(Some(id), body, false))])
    else p.(ids := SettledWith(ids, id, false))
  }

  /** sendInternalOneWay: settled before it is sent. */
  function SentOneWay(p: Pipe, body: string, sendOk: bool): Pipe {
    var id := p.ids.next;
    var ids := SettledWith(Allocated(p.ids), id, true);
    if sendOk then p.(ids := ids, toUpstream := p.toUpstream + [Json(Message(Some(id), body, false))])
    else p.(ids := ids)
  }

  datatype Event =
    | Start
    | StartHookOk(more: bool)
    | StartHookFailed
    | RunWith(client: bool)
    | Finalize
    | EndHookSettled
    | FinallyRuns
    | SendInternal(body: string, sendOk: bool)
    | SendOneWay(body: string, sendOk: bool)
    | FromUpstream(data: Data, congested: bool, hooks: seq<ResponseHook>, dropped: bool)
    | FromClient(clientData: Data, commandHooks: seq<CommandHook>)

  ghost predicate WellFormed(p: Pipe) {
    p.endPhase.Ending? ==> p.endPhase.plugin < |p.endHooks|
  }

  function Step(p: Pipe, e: Event): Pipe
    requires WellFormed(p)
  {
    match e
    case Start => if p.start == NotStarted then p.(start := Starting) else p
    case StartHookOk(more) =>
      if p.start != Starting then p
      else if p.closed then p.(start := StartFailed)
      else if more then p else p.(start := Ready)
    case StartHookFailed =>
      if p.start != Starting then p else p.(start := StartFailed, closed := true, ids := AllRejected(p.ids))
    case RunWith(client) => if p.start != NotStarted && !p.closed then p.(hasClient := client) else p
    case Finalize => if p.start == NotStarted then p else Finalized(p)
    case EndHookSettled => if p.endPhase.Ending? then Advanced(p, p.endPhase.plugin) else p
    case FinallyRuns => if p.endPhase == HooksOver then p.(endPhase := Finished, ids := AllRejected(p.ids)) else p
    case SendInternal(body, sendOk) => Sent(p, body, sendOk)
    case SendOneWay(body, sendOk) => SentOneWay(p, body, sendOk)
    case FromUpstream(d, congested, hooks, dropped) =>
      if p.start == NotStarted then p else FromUpstreamOf(p, d, congested, hooks, dropped)
    case FromClient(d, hooks) => if p.hasClient then FromClientOf(p, d, hooks) else p
  }

  // ---------------------------------------------------------------- invariants

  /** Internal ids lie in [2^30, next); each allocated one is pending or settled, never both, and
      settled at most once. */
  ghost predicate IdInv(s: Ids) {
    && INTERNAL_ID_BASE <= s.next
    && (forall i, j :: 0 <= i < j < |s.pending| ==> s.pending[i] < s.pending[j])
    && (forall i, j :: 0 <= i < j < |s.settled| ==> s.settled[i].id != s.settled[j].id)
    && (forall id :: id in s.pending ==> INTERNAL_ID_BASE <= id < s.next)
    && (forall i :: 0 <= i < |s.settled| ==> INTERNAL_ID_BASE <= s.settled[i].id < s.next)
    && (forall id :: INTERNAL_ID_BASE <= id < s.next ==> (id in s.pending) != WasSettled(s, id))
  }

  ghost predicate WasSettled(s: Ids, id: int) {
    exists i :: 0 <= i < |s.settled| && s.settled[i].id == id
  }

  lemma {:induction false} DropExactly(pending: seq<int>, id: int)
    requires forall i, j :: 0 <= i < j < |pending| ==> pending[i] < pending[j]
    ensures var r := Drop(pending, id);
            && (forall i, j :: 0 <= i < j < |r| ==> r[i] < r[j])
            && (forall x :: x in r <==> x in pending && x != id)
  {
    if pending != [] {
      var head, rest := pending[0], pending[1..];
      assert pending == [head] + rest;
      assert forall x :: x in rest ==> head < x by {
        forall x | x in rest ensures head < x {
          var i :| 0 <= i < |rest| && rest[i] == x;
          assert pending[i + 1] == x;
        }
      }
      if head != id {
        DropExactly(rest, id);
        var r := Drop(rest, id);
        forall j | 0 <= j < |r| ensures head < r[j] {
          assert r[j] in r;
        }
      }
    }
  }

  lemma AllocateKeeps(s: Ids)
    requires IdInv(s)
    ensures IdInv(Allocated(s))
  {
    var r := Allocated(s);
    assert r.pending[|s.pending|] == s.next;
    forall i | 0 <= i < |s.pending| ensures s.pending[i] < s.next {
      assert s.pending[i] in s.pending;
    }
    forall id | INTERNAL_ID_BASE <= id < r.next ensures (id in r.pending) != WasSettled(r, id) {
      if id < s.next {
        assert (id in s.pending) != WasSettled(s, id);
      }
    }
  }

  lemma SettleKeeps(s: Ids, id: int, resolved: bool)
    requires IdInv(s)
    ensures IdInv(SettledWith(s, id, resolved))
  {
    if id in s.pending {
      var r := SettledWith(s, id, resolved);
      DropExactly(s.pending, id);
      assert !WasSettled(s, id);
      forall x | INTERNAL_ID_BASE <= x < r.next ensures (x in r.pending) != WasSettled(r, x) {
        assert (x in s.pending) != WasSettled(s, x);
        if x == id {
          assert r.settled[|s.settled|].id == x;
        } else if WasSettled(s, x) {
          var i :| 0 <= i < |s.settled| && s.settled[i].id == x;
          assert r.settled[i].id == x;
        }
      }
    }
  }

  lemma RejectAllKeeps(s: Ids)
    requires IdInv(s)
    ensures IdInv(AllRejected(s))
  {
    var r := AllRejected(s);
    var n := |s.settled|;
    forall i, j | 0 <= i < j < |r.settled| ensures r.settled[i].id != r.settled[j].id {
      if i < n <= j {
        assert s.pending[j - n] in s.pending;
        assert WasSettled(s, s.settled[i].id);
      }
    }
    forall i | 0 <= i < |r.settled| ensures INTERNAL_ID_BASE <= r.settled[i].id < r.next {
      if n <= i {
        assert s.pending[i - n] in s.pending;
      }
    }
    forall x | INTERNAL_ID_BASE <= x < r.next ensures WasSettled(r, x) {
      RejectedAreSettled(s, x);
    }
  }

  lemma RejectedAreSettled(s: Ids, x: int)
    requires x in s.pending || WasSettled(s, x)
    ensures WasSettled(AllRejected(s), x)
  {
    var r, n := AllRejected(s), |s.settled|;
    if WasSettled(s, x) {
      var i :| 0 <= i < n && s.settled[i].id == x;
      assert r.settled[i].id == x;
    } else {
      var i :| 0 <= i < |s.pending| && s.pending[i] == x;
      assert r.settled[n + i].id == x;
    }
  }

  /** No message with an internal id was sent to the client. */
  ghost predicate ClientSafe(p: Pipe) {
    forall i :: 0 <= i < |p.toClient| && p.toClient[i].Json? && p.toClient[i].msg.id.Some? ==>
      p.toClient[i].msg.id.value < INTERNAL_ID_BASE
  }

  lemma {:induction false} RewritingKeepsId(hooks: seq<ResponseHook>, msg: Message)
    requires KeepIds(hooks)
    ensures Rewritten(hooks, msg).id == msg.id
  {
    if hooks != [] {
      RewritingKeepsId(hooks[..|hooks| - 1], msg);
    }
  }

  /** The end hooks above `k`, last plugin first. */
  function HooksFrom(endHooks: seq<bool>, k: nat): seq<nat>
    requires k <= |endHooks|
    decreases |endHooks| - k
  {
    if k == |endHooks| then [] else HooksFrom(endHooks, k + 1) + if endHooks[k] then [k] else []
  }

  /** How far the shutdown has come is exactly which hooks were invoked. */
  ghost predicate EndInv(p: Pipe) {
    && WellFormed(p)
    && (p.endPhase != Open ==> p.closed)
    && (match p.endPhase
        case Open => p.ended == []
        case Ending(k) => p.endHooks[k] && p.ended == HooksFrom(p.endHooks, k)
        case _ => p.ended == HooksFrom(p.endHooks, 0))
    && (p.closed && p.endPhase == Open ==> p.start == StartFailed)
    && (!p.closed ==> p.start != StartFailed)
  }

  ghost predicate Inv(p: Pipe) {
    IdInv(p.ids) && EndInv(p)
  }

  lemma {:induction false} HooksBetween(endHooks: seq<bool>, j: nat, k: nat)
    requires j <= k <= |endHooks|
    requires forall i :: j <= i < k ==> !endHooks[i]
    ensures HooksFrom(endHooks, j) == HooksFrom(endHooks, k)
    decreases k - j
  {
    if j < k {
      HooksBetween(endHooks, j + 1, k);
    }
  }

  lemma AdvanceKeeps(p: Pipe, k: nat)
    requires k <= |p.endHooks| && p.closed && p.ended == HooksFrom(p.endHooks, k)
    ensures EndInv(Advanced(p, k))
  {
    var next := LastHook(p.endHooks, k);
    if next.Some? {
      HooksBetween(p.endHooks, next.value + 1, k);
    } else {
      HooksBetween(p.endHooks, 0, k);
    }
  }

  lemma IdsKept(p: Pipe, e: Event)
    requires Inv(p)
    ensures IdInv(Step(p, e).ids)
  {
    match e
    case StartHookFailed => RejectAllKeeps(p.ids);
    case FinallyRuns => RejectAllKeeps(p.ids);
    case SendInternal(body, sendOk) =>
      AllocateKeeps(p.ids);
      SettleKeeps(Allocated(p.ids), p.ids.next, false);
    case SendOneWay(body, sendOk) =>
      AllocateKeeps(p.ids);
      SettleKeeps(Allocated(p.ids), p.ids.next, true);
    case FromUpstream(d, congested, hooks, dropped) =>
      if d.Json? && d.msg.id.Some? { SettleKeeps(p.ids, d.msg.id.value, !d.msg.failed); }
    case _ =>
  }

  lemma EndKept(p: Pipe, e: Event)
    requires Inv(p)
    ensures EndInv(Step(p, e)) && Step(p, e).endHooks == p.endHooks
  {
    if e.Finalize? || e.EndHookSettled? {
      ShutdownKept(p, e);
    } else if e.StartHookOk? || e.StartHookFailed? {
      StartKept(p, e);
    }
  }

  lemma StartKept(p: Pipe, e: Event)
    requires Inv(p) && (e.StartHookOk? || e.StartHookFailed?)
    ensures EndInv(Step(p, e)) && Step(p, e).endHooks == p.endHooks
  {
  }

  lemma ShutdownKept(p: Pipe, e: Event)
    requires Inv(p) && (e.Finalize? || e.EndHookSettled?)
    ensures EndInv(Step(p, e)) && Step(p, e).endHooks == p.endHooks
  {
    if e.Finalize? {
      if !p.closed { AdvanceKeeps(p.(closed := true), |p.endHooks|); }
    } else if p.endPhase.Ending? {
      AdvanceKeeps(p, p.endPhase.plugin);
    }
  }

  lemma StepKeeps(p: Pipe, e: Event)
    requires Inv(p)
    ensures Inv(Step(p, e))
    ensures Step(p, e).endHooks == p.endHooks
  {
    IdsKept(p, e);
    EndKept(p, e);
  }

  ghost predicate HooksKeepIds(es: seq<Event>) {
    forall i :: 0 <= i < |es| && es[i].FromUpstream? ==> KeepIds(es[i].hooks)
  }

  /** The states a run reaches are well formed, so the next step is defined. */
  ghost function Run(endHooks: seq<bool>, es: seq<Event>): (p: Pipe)
    ensures Inv(p) && p.endHooks == endHooks
  {
    if es == [] then Initial(endHooks) else
      var before := Run(endHooks, es[..|es| - 1]);
      StepKeeps(before, es[|es| - 1]);
      Step(before, es[|es| - 1])
  }

  // ---------------------------------------------------------------- isolation of the two id spaces

  /** Id isolation over whole runs: with response hooks that keep a message's id, nothing sent to
      the client ever carries an internal id. Replies to one-way, failed or already settled
      commands included: their ids stay internal for ever. */
  lemma {:induction false} NoInternalIdReachesClient(endHooks: seq<bool>, es: seq<Event>)
    requires HooksKeepIds(es)
    ensures ClientSafe(Run(endHooks, es))
  {
    if es != [] {
      var e := es[|es| - 1];
      NoInternalIdReachesClient(endHooks, es[..|es| - 1]);
      ClientStaysSafe(Run(endHooks, es[..|es| - 1]), e);
    }
  }

  lemma ClientStaysSafe(p: Pipe, e: Event)
    requires Inv(p) && ClientSafe(p)
    requires e.FromUpstream? ==> KeepIds(e.hooks)
    ensures ClientSafe(Step(p, e))
  {
    if e.FromUpstream? && e.data.Json? {
      RewritingKeepsId(e.hooks, e.data.msg);
    }
  }

  /** What the pipeline does with one upstream response that is not dropped for congestion: it is
      passed to the client, as exactly one message with the same id, if and only if its id is
      below 2^30. Otherwise the client hears nothing, and a pending call with that id is settled. */
  lemma ResponseRouting(endHooks: seq<bool>, es: seq<Event>, msg: Message, hooks: seq<ResponseHook>, dropped: bool)
    requires KeepIds(hooks) && msg.id.Some?
    requires Run(endHooks, es).hasClient && Run(endHooks, es).start != NotStarted
    ensures var p := Run(endHooks, es);
            var q := Step(p, FromUpstream(Json(msg), false, hooks, dropped));
            && (msg.id.value < INTERNAL_ID_BASE <==>
                  |q.toClient| == |p.toClient| + 1 && q.toClient[..|p.toClient|] == p.toClient
                  && q.toClient[|p.toClient|].Json? && q.toClient[|p.toClient|].msg.id == msg.id)
            && (msg.id.value < INTERNAL_ID_BASE ==> q.ids == p.ids)
            && (INTERNAL_ID_BASE <= msg.id.value ==> q.toClient == p.toClient && msg.id.value !in q.ids.pending)
            && (msg.id.value in p.ids.pending ==>
                q.ids.settled == p.ids.settled + [Settlement(msg.id.value, !msg.failed)])
  {
    var p := Run(endHooks, es);
    RewritingKeepsId(hooks, msg);
    DropExactly(p.ids.pending, msg.id.value);
  }

  // ---------------------------------------------------------------- settlement

  lemma SettledGrows(p: Pipe, e: Event)
    requires WellFormed(p)
    ensures p.ids.settled <= Step(p, e).ids.settled
  {
  }

  /** Every internal call ever made is pending or has been settled exactly once, in every
      reachable state; and a settlement, once given, stands. */
  lemma {:induction false} SettledAtMostOnce(endHooks: seq<bool>, es: seq<Event>, more: seq<Event>)
    ensures IdInv(Run(endHooks, es).ids)
    ensures Run(endHooks, es).ids.settled <= Run(endHooks, es + more).ids.settled
  {
    if more == [] {
      assert es + more == es;
    } else {
      var earlier := more[..|more| - 1];
      assert (es + more)[..|es + more| - 1] == es + earlier;
      SettledAtMostOnce(endHooks, es, earlier);
      SettledGrows(Run(endHooks, es + earlier), more[|more| - 1]);
      assert Run(endHooks, es + more) == Step(Run(endHooks, es + earlier), more[|more| - 1]);
    }
  }

  /** The pipeline rejects what is left: at the end of a session, or when a plugin fails to start. */
  predicate Rejecting(p: Pipe, e: Event) {
    (e.FinallyRuns? && p.endPhase == HooksOver) || (e.StartHookFailed? && p.start == Starting)
  }

  /** A call was settled, and once only. */
  ghost predicate SettledOnce(s: Ids, id: int) {
    exists i :: 0 <= i < |s.settled| && s.settled[i].id == id &&
                forall j :: 0 <= j < |s.settled| && s.settled[j].id == id ==> j == i
  }

  lemma WasSettledOnce(s: Ids, id: int)
    requires IdInv(s) && WasSettled(s, id)
    ensures SettledOnce(s, id)
  {
    var i :| 0 <= i < |s.settled| && s.settled[i].id == id;
    assert forall j :: 0 <= j < |s.settled| && s.settled[j].id == id ==> j == i;
  }

  ghost predicate PendingFrom(s: Ids, n: int) {
    n <= s.next && forall id :: id in s.pending ==> n <= id
  }

  lemma {:induction false} DropOnlyDrops(pending: seq<int>, id: int)
    ensures forall x :: x in Drop(pending, id) ==> x in pending
  {
    if pending != [] {
      DropOnlyDrops(pending[1..], id);
    }
  }

  lemma SettleKeepsPending(s: Ids, id: int, resolved: bool, n: int)
    requires PendingFrom(s, n)
    ensures PendingFrom(SettledWith(s, id, resolved), n)
  {
    DropOnlyDrops(s.pending, id);
  }

  /** No event makes an id pending again: only ids not handed out yet can become so. */
  lemma PendingStaysFrom(p: Pipe, e: Event, n: int)
    requires WellFormed(p) && PendingFrom(p.ids, n)
    ensures PendingFrom(Step(p, e).ids, n)
  {
    match e
    case SendInternal(body, sendOk) =>
      SettleKeepsPending(Allocated(p.ids), p.ids.next, false, n);
    case SendOneWay(body, sendOk) =>
      SettleKeepsPending(Allocated(p.ids), p.ids.next, true, n);
    case FromUpstream(d, congested, hooks, dropped) =>
      if d.Json? && d.msg.id.Some? { SettleKeepsPending(p.ids, d.msg.id.value, !d.msg.failed, n); }
    case _ =>
  }

  lemma {:induction false} PendingStaysFromRun(endHooks: seq<bool>, es: seq<Event>, more: seq<Event>, n: int)
    requires PendingFrom(Run(endHooks, es).ids, n)
    ensures PendingFrom(Run(endHooks, es + more).ids, n)
  {
    if more == [] {
      assert es + more == es;
    } else {
      var earlier := more[..|more| - 1];
      assert (es + more)[..|es + more| - 1] == es + earlier;
      PendingStaysFromRun(endHooks, es, earlier, n);
      PendingStaysFrom(Run(endHooks, es + earlier), more[|more| - 1], n);
      assert Run(endHooks, es + more) == Step(Run(endHooks, es + earlier), more[|more| - 1]);
    }
  }

  /** Rejection is final. Whatever happens after the pipeline rejected what was left, every internal
      call made before is settled, exactly once; only calls made since can be pending. */
  lemma NothingPendingAfterReject(endHooks: seq<bool>, es: seq<Event>, e: Event, more: seq<Event>, id: int)
    requires Rejecting(Run(endHooks, es), e)
    ensures var n := Run(endHooks, es).ids.next;
            var s := Run(endHooks, es + [e] + more).ids;
            && (INTERNAL_ID_BASE <= id < n ==> id !in s.pending && SettledOnce(s, id))
            && (id in s.pending ==> n <= id)
  {
    var n := Run(endHooks, es).ids.next;
    var s := Run(endHooks, es + [e] + more).ids;
    assert PendingFrom(Run(endHooks, es + [e]).ids, n) by { RunThen(endHooks, es, e); }
    PendingStaysFromRun(endHooks, es + [e], more, n);
    if INTERNAL_ID_BASE <= id < n {
      WasSettledOnce(s, id);
    }
  }

  // ---------------------------------------------------------------- end hooks

  lemma {:induction false} HooksDescend(endHooks: seq<bool>, k: nat)
    requires k <= |endHooks|
    ensures var h := HooksFrom(endHooks, k);
            && (forall i :: 0 <= i < |h| ==> k <= h[i] < |endHooks| && endHooks[h[i]])
            && (forall i, j :: 0 <= i < j < |h| ==> h[j] < h[i])
            && (forall i :: k <= i < |endHooks| && endHooks[i] ==> i in h)
    decreases |endHooks| - k
  {
    if k < |endHooks| {
      HooksDescend(endHooks, k + 1);
      var h := HooksFrom(endHooks, k);
      if endHooks[k] {
        assert h[|h| - 1] == k;
      }
      forall i | k <= i < |endHooks| && endHooks[i] ensures i in h {
        if i != k {
          assert i in HooksFrom(endHooks, k + 1);
        }
      }
    }
  }

  /** In every reachable state the end hooks invoked so far are distinct plugins in reverse plugin
      order, and once they are over every plugin that has one was invoked. */
  lemma EndHooksOnceInReverse(endHooks: seq<bool>, es: seq<Event>)
    ensures var p := Run(endHooks, es);
            && (forall i, j :: 0 <= i < j < |p.ended| ==> p.ended[j] < p.ended[i])
            && (forall i :: 0 <= i < |p.ended| ==> p.ended[i] < |endHooks| && endHooks[p.ended[i]])
            && (p.endPhase == HooksOver || p.endPhase == Finished ==>
                  forall i :: 0 <= i < |endHooks| && endHooks[i] ==> i in p.ended)
  {
    var p := Run(endHooks, es);
    HooksDescend(endHooks, if p.endPhase.Ending? then p.endPhase.plugin else 0);
  }

  /** A session that a plugin's failing start closed first never runs an end hook, whatever comes later. */
  lemma {:induction false} FailedStartSilencesEndHooks(endHooks: seq<bool>, es: seq<Event>, more: seq<Event>)
    requires Run(endHooks, es).start == Starting && !Run(endHooks, es).closed
    ensures var p := Run(endHooks, es + [StartHookFailed] + more);
            p.closed && p.endPhase == Open && p.ended == []
    decreases |more|
  {
    if more == [] {
      assert es + [StartHookFailed] + more == es + [StartHookFailed];
      RunThen(endHooks, es, StartHookFailed);
    } else {
      var n := |more| - 1;
      assert es + [StartHookFailed] + more == es + [StartHookFailed] + more[..n] + [more[n]];
      FailedStartSilencesEndHooks(endHooks, es, more[..n]);
      RunThen(endHooks, es + [StartHookFailed] + more[..n], more[n]);
      SilenceStays(Run(endHooks, es + [StartHookFailed] + more[..n]), more[n]);
    }
  }

  lemma RunThen(endHooks: seq<bool>, es: seq<Event>, e: Event)
    ensures Run(endHooks, es + [e]) == Step(Run(endHooks, es), e)
    ensures Run(endHooks, es).endPhase == Open ==> Run(endHooks, es).ended == []
  {
  }

  lemma SilenceStays(p: Pipe, e: Event)
    requires WellFormed(p) && p.closed && p.endPhase == Open && p.ended == []
    ensures Step(p, e).closed && Step(p, e).endPhase == Open && Step(p, e).ended == []
  {
  }

  ghost predicate LastEndHook(endHooks: seq<bool>, i: nat) {
    i < |endHooks| && endHooks[i] && forall j :: i < j < |endHooks| ==> !endHooks[j]
  }

  lemma FinalizeInvokesLast(p: Pipe, i: nat)
    requires Inv(p) && !p.closed && p.start != NotStarted && LastEndHook(p.endHooks, i)
    ensures Step(p, Finalize).ended == [i]
  {
    var next := LastHook(p.endHooks, |p.endHooks|);
    assert next == Some(i);
    assert Step(p, Finalize) == Advanced(p.(closed := true), |p.endHooks|);
  }

  /** In every other closed session they do run: closing by `finalize` invokes the last plugin's
      end hook at once, and a session is only ever closed in one of these two ways. */
  lemma FinalizeRunsEndHooks(endHooks: seq<bool>, es: seq<Event>)
    ensures var p := Run(endHooks, es);
            && (p.closed && p.endPhase == Open ==> p.start == StartFailed)
            && (!p.closed && p.start != NotStarted ==>
                  var q := Step(p, Finalize);
                  && q.closed && q.endPhase != Open
                  && forall i: nat :: LastEndHook(endHooks, i) ==> q.ended == [i])
  {
    var p := Run(endHooks, es);
    if !p.closed && p.start != NotStarted {
      forall i: nat | LastEndHook(endHooks, i) ensures Step(p, Finalize).ended == [i] {
        FinalizeInvokesLast(p, i);
      }
    }
  }

  /** The event makes the start fail: a start hook fails, or the pipeline turns out to be closed
      after one that did not. */
  predicate StartFails(p: Pipe, e: Event) {
    p.start == Starting && (e.StartHookFailed? || (e.StartHookOk? && p.closed))
  }

  lemma EndedGrows(p: Pipe, e: Event)
    requires WellFormed(p)
    ensures p.ended <= Step(p, e).ended
  {
  }

  lemma {:induction false} EndedGrowsInRun(endHooks: seq<bool>, es: seq<Event>, more: seq<Event>)
    ensures Run(endHooks, es).ended <= Run(endHooks, es + more).ended
  {
    if more == [] {
      assert es + more == es;
    } else {
      var earlier := more[..|more| - 1];
      assert (es + more)[..|es + more| - 1] == es + earlier;
      EndedGrowsInRun(endHooks, es, earlier);
      EndedGrows(Run(endHooks, es + earlier), more[|more| - 1]);
      assert Run(endHooks, es + more) == Step(Run(endHooks, es + earlier), more[|more| - 1]);
    }
  }

  /** A state closed while it is starting has invoked an end hook, if any plugin has one. */
  lemma ClosedWhileStarting(p: Pipe)
    requires EndInv(p) && p.start == Starting && p.closed && AnyEndHook(p.endHooks)
    ensures p.ended != []
  {
    HooksDescend(p.endHooks, if p.endPhase.Ending? then p.endPhase.plugin else 0);
  }

  predicate AnyEndHook(endHooks: seq<bool>) {
    true in endHooks
  }

  lemma EndHookStaysInvoked(endHooks: seq<bool>, es: seq<Event>, e: Event, more: seq<Event>)
    requires Run(endHooks, es).ended != []
    ensures Run(endHooks, es + [e] + more).ended != []
  {
    assert es + [e] + more == es + ([e] + more);
    EndedGrowsInRun(endHooks, es, [e] + more);
  }

  lemma ClosedStartFails(endHooks: seq<bool>, es: seq<Event>, e: Event, more: seq<Event>)
    requires Run(endHooks, es).start == Starting && Run(endHooks, es).closed && AnyEndHook(endHooks)
    ensures Run(endHooks, es + [e] + more).ended != []
  {
    ClosedWhileStarting(Run(endHooks, es));
    EndHookStaysInvoked(endHooks, es, e, more);
  }

  lemma OpenStartFails(endHooks: seq<bool>, es: seq<Event>, e: Event, more: seq<Event>)
    requires StartFails(Run(endHooks, es), e) && !Run(endHooks, es).closed
    ensures Run(endHooks, es + [e] + more).ended == []
  {
    assert [e] == [StartHookFailed];
    FailedStartSilencesEndHooks(endHooks, es, more);
  }

  /** When a failed start leaves the end hooks alone: whatever comes later, none is ever invoked,
      exactly if the pipeline was still open at the moment the start failed. */
  lemma FailedStartRunsNoEndHookIff(endHooks: seq<bool>, es: seq<Event>, e: Event, more: seq<Event>)
    requires StartFails(Run(endHooks, es), e) && AnyEndHook(endHooks)
    ensures Run(endHooks, es + [e] + more).ended == [] <==> !Run(endHooks, es).closed
  {
    if Run(endHooks, es).closed {
      ClosedStartFails(endHooks, es, e, more);
    } else {
      OpenStartFails(endHooks, es, e, more);
    }
  }

  lemma StartInterrupted()
    ensures var started := Initial([true]).(start := Starting);
            && Step(Initial([true]), Start) == started
            && Step(started, Finalize) == started.(closed := true, endPhase := Ending(0), ended := [0])
  {
    assert LastHook([true], 1) == Some(0);
  }

  /** The header comment says that end hooks do not run when starting fails. They do when starting
      fails because the upstream closed meanwhile. */
  lemma EndHooksRunAfterFailedStart()
    ensures var p := Run([true], [Start, Finalize, StartHookOk(true)]);
            p.start == StartFailed && p.ended == [0]
  {
    StartInterrupted();
    var es := [Start, Finalize, StartHookOk(true)];
    assert es[..1] == [] + [Start] && es[..2] == es[..1] + [Finalize] && es == es[..2] + [StartHookOk(true)];
    assert Run([true], es[..1]) == Step(Initial([true]), Start) by { RunThen([true], [], Start); }
    assert Run([true], es[..2]) == Step(Run([true], es[..1]), Finalize) by { RunThen([true], es[..1], Finalize); }
    RunThen([true], es[..2], StartHookOk(true));
  }

  // ---------------------------------------------------------------- the pipeline object

  class Pipeline {
    const endHooks: seq<bool>
    const ids: InternalIdSpace
    var start: StartPhase
    var closed: bool
    var hasClient: bool
    var toClient: seq<Data>
    var toUpstream: seq<Data>
    var endPhase: EndPhase
    var ended: seq<nat>

    constructor (endHooks: seq<bool>)
      ensures View() == Initial(endHooks)
    {
      var space := new InternalIdSpace();
      this.endHooks, this.ids := endHooks, space;
      start, closed, hasClient, toClient, toUpstream := NotStarted, false, false, [], [];
      endPhase, ended := Open, [];
    }

    function View(): Pipe
      reads this, ids
    {
      Pipe(endHooks, ids.View(), start, closed, hasClient, toClient, toUpstream, endPhase, ended)
    }

    method SendInternal(body: string, sendOk: bool) returns (id: int)
      modifies this, ids
      ensures View() == Sent(old(View()), body, sendOk)
    {
      id := ids.Allocate();
      if sendOk {
        toUpstream := toUpstream + [Json(Message(Some(id), body, false))];
      } else {
        var known := ids.Settle(id, false);
      }
    }

    method SendInternalOneWay(body: string, sendOk: bool)
      modifies this, ids
      ensures View() == SentOneWay(old(View()), body, sendOk)
    {
      var id := ids.Allocate();
      var known := ids.Settle(id, true);
      if sendOk {
        toUpstream := toUpstream + [Json(Message(Some(id), body, false))];
      }
    }

    method BeginStart()
      requires WellFormed(View())
      modifies this
      ensures View() == Step(old(View()), Start)
    {
      if start == NotStarted {
        start := Starting;
      }
    }

    /** A plugin's start hook has resolved. */
    method OnStartHook(more: bool)
      requires WellFormed(View())
      modifies this
      ensures View() == Step(old(View()), StartHookOk(more))
    {
      if start != Starting {
        return;
      }
      if closed {
        start := StartFailed;
      } else if !more {
        start := Ready;
      }
    }

    method OnStartHookFailed()
      requires WellFormed(View())
      modifies this, ids
      ensures View() == Step(old(View()), StartHookFailed)
    {
      if start != Starting {
        return;
      }
      start := StartFailed;
      closed := true;
      ids.RejectAll();
    }

    method AttachClient(client: bool)
      requires WellFormed(View())
      modifies this
      ensures View() == Step(old(View()), RunWith(client))
    {
      if start != NotStarted && !closed {
        hasClient := client;
      }
    }

    method SendToClient(d: Data)
      modifies this`toClient
      ensures toClient == if hasClient then old(toClient) + [d] else old(toClient)
    {
      if hasClient {
        toClient := toClient + [d];
      }
    }

    static method ApplyResponseHooks(hooks: seq<ResponseHook>, msg: Message) returns (result: Message)
      ensures result == Rewritten(hooks, msg)
    {
      result := msg;
      for i := 0 to |hooks|
        invariant result == Rewritten(hooks[..i], msg)
      {
        assert hooks[..i + 1][..i] == hooks[..i];
        var rewritten := hooks[i](result);
        if rewritten.Some? {
          result := rewritten.value;
        }
      }
      assert hooks[..|hooks|] == hooks;
    }

    method OnUpstreamMessage(d: Data, congested: bool, hooks: seq<ResponseHook>, dropped: bool)
      modifies this, ids
      ensures View() == FromUpstreamOf(old(View()), d, congested, hooks, dropped)
    {
      if d.Binary? {
        SendToClient(d);
        return;
      }
      if hasClient && congested {
        return;
      }
      if d.Opaque? {
        SendToClient(d);
        return;
      }
      if d.msg.id.Some? {
        var id := d.msg.id.value;
        if ids.Owns(id) {
          var known := ids.Settle(id, !d.msg.failed);
          return;
        }
        if InternalIdSpace.IsInternal(id) {
          return;
        }
        var rewritten := ApplyResponseHooks(hooks, d.msg);
        SendToClient(Json(rewritten));
        return;
      }
      if !dropped {
        SendToClient(d);
      }
    }

    method OnClientMessage(d: Data, hooks: seq<CommandHook>)
      modifies this`toUpstream
      ensures View() == FromClientOf(old(View()), d, hooks)
    {
      if !d.Json? {
        toUpstream := toUpstream + [d];
        return;
      }
      var msg := d.msg;
      for i := 0 to |hooks|
        invariant toUpstream == old(toUpstream)
        invariant Commanded(hooks, d.msg) == Commanded(hooks[i..], msg)
      {
        assert hooks[i..][0] == hooks[i] && hooks[i..][1..] == hooks[i + 1..];
        match hooks[i](msg) {
          case Forward =>
          case Discard => return;
          case Rewrite(m) => msg := m;
        }
      }
      toUpstream := toUpstream + [Json(msg)];
    }

    method FinalizeOnce()
      modifies this
      ensures View() == Finalized(old(View()))
    {
      if closed {
        return;
      }
      closed := true;
      NextEndHook(|endHooks|);
    }

    /** runOnSessionEnd, from below plugin `k` to the next hook it awaits. */
    method NextEndHook(k: nat)
      requires k <= |endHooks|
      modifies this`endPhase, this`ended
      ensures View() == Advanced(old(View()), k)
    {
      var i: nat := k;
      while 0 < i && !endHooks[i - 1]
        invariant i <= k && LastHook(endHooks, k) == LastHook(endHooks, i)
      {
        i := i - 1;
      }
      if i == 0 {
        endPhase := HooksOver;
      } else {
        endPhase := Ending(i - 1);
        ended := ended + [i - 1];
      }
    }

    method OnEndHookSettled()
      requires WellFormed(View())
      modifies this
      ensures View() == Step(old(View()), EndHookSettled)
    {
      if endPhase.Ending? {
        NextEndHook(endPhase.plugin);
      }
    }

    method FinishEnd()
      requires WellFormed(View())
      modifies this, ids
      ensures View() == Step(old(View()), FinallyRuns)
    {
      if endPhase == HooksOver {
        endPhase := Finished;
        ids.RejectAll();
      }
    }
  }
}
