/** What the pipeline puts on its two sockets: the ids of its own calls and their replies, and what
    the plugin hooks make of the messages passed on. */
module Traffic {
  import opened Basics
  import opened Pipeline

  // ---------------------------------------------------------------- internal calls

  /** The id belongs to an internal call made so far. */
  ghost predicate HandedOut(s: Ids, id: int) {
    id in s.pending || WasSettled(s, id)
  }

  lemma NextGrows(p: Pipe, e: Event)
    requires WellFormed(p)
    ensures p.ids.next <= Step(p, e).ids.next
  {
  }

  /** An id once handed out stays so, pending or settled. */
  lemma {:induction false} HandedOutForEver(endHooks: seq<bool>, es: seq<Event>, more: seq<Event>, id: int)
    requires HandedOut(Run(endHooks, es).ids, id)
    ensures HandedOut(Run(endHooks, es + more).ids, id)
    decreases |more|
  {
    if more == [] {
      assert es + more == es;
    } else {
      var n := |more| - 1;
      assert es + more == es + more[..n] + [more[n]];
      HandedOutForEver(endHooks, es, more[..n], id);
      RunThen(endHooks, es + more[..n], more[n]);
      NextGrows(Run(endHooks, es + more[..n]), more[n]);
      InRange(Run(endHooks, es + more[..n]).ids, id);
      InRange(Run(endHooks, es + more).ids, id);
    }
  }

  lemma InRange(s: Ids, id: int)
    requires IdInv(s)
    ensures HandedOut(s, id) <==> INTERNAL_ID_BASE <= id < s.next
  {
  }

  lemma {:induction false} DropLast(pending: seq<int>, id: int)
    requires id !in pending
    ensures Drop(pending + [id], id) == pending
  {
    if pending != [] {
      assert (pending + [id])[1..] == pending[1..] + [id];
      DropLast(pending[1..], id);
    }
  }

  /** The call made by this event: one message upstream if the send succeeds, carrying an internal id
      never handed out before; that id is pending after a call that will be answered, and settled
      after one that will not or could not be sent. */
  ghost predicate Calls(p: Pipe, q: Pipe, id: int, body: string, sent: bool, settled: seq<Settlement>) {
    && INTERNAL_ID_BASE <= id && !HandedOut(p.ids, id)
    && q.toUpstream == p.toUpstream + (if sent then [Json(Message(Some(id), body, false))] else [])
    && q.ids.pending == p.ids.pending + (if settled == [] then [id] else [])
    && q.ids.settled == p.ids.settled + settled
    && q.toClient == p.toClient
  }

  lemma SendCalls(p: Pipe, body: string, sendOk: bool)
    requires WellFormed(p) && !HandedOut(p.ids, p.ids.next) && INTERNAL_ID_BASE <= p.ids.next
    ensures Calls(p, Step(p, SendInternal(body, sendOk)), p.ids.next, body, sendOk,
                  if sendOk then [] else [Settlement(p.ids.next, false)])
    ensures Calls(p, Step(p, SendOneWay(body, sendOk)), p.ids.next, body, sendOk, [Settlement(p.ids.next, true)])
  {
    DropLast(p.ids.pending, p.ids.next);
  }

  lemma SendMeaning(endHooks: seq<bool>, es: seq<Event>, body: string, sendOk: bool) returns (id: int)
    ensures Calls(Run(endHooks, es), Run(endHooks, es + [SendInternal(body, sendOk)]), id, body, sendOk,
                  if sendOk then [] else [Settlement(id, false)])
  {
    var p := Run(endHooks, es);
    id := p.ids.next;
    InRange(p.ids, id);
    SendCalls(p, body, sendOk);
    RunThen(endHooks, es, SendInternal(body, sendOk));
  }

  lemma SendOneWayMeaning(endHooks: seq<bool>, es: seq<Event>, body: string, sendOk: bool) returns (id: int)
    ensures Calls(Run(endHooks, es), Run(endHooks, es + [SendOneWay(body, sendOk)]), id, body, sendOk,
                  [Settlement(id, true)])
  {
    var p := Run(endHooks, es);
    id := p.ids.next;
    InRange(p.ids, id);
    SendCalls(p, body, sendOk);
    RunThen(endHooks, es, SendOneWay(body, sendOk));
  }

  /** The reply that carries a pending id settles exactly that call and reaches no client. */
  lemma ReplyMeaning(endHooks: seq<bool>, es: seq<Event>, reply: Message, id: int, congested: bool,
                     hooks: seq<ResponseHook>, dropped: bool)
    requires reply.id == Some(id) && id in Run(endHooks, es).ids.pending
    requires Run(endHooks, es).start != NotStarted && !(Run(endHooks, es).hasClient && congested)
    ensures var p, q := Run(endHooks, es), Run(endHooks, es + [FromUpstream(Json(reply), congested, hooks, dropped)]);
            && q.toClient == p.toClient && q.toUpstream == p.toUpstream
            && (forall x :: x in q.ids.pending <==> x in p.ids.pending && x != id)
            && q.ids.settled == p.ids.settled + [Settlement(id, !reply.failed)]
  {
    RunThen(endHooks, es, FromUpstream(Json(reply), congested, hooks, dropped));
    DropExactly(Run(endHooks, es).ids.pending, id);
  }

  /** A call and its reply: whatever happens in between, as long as the call is pending, the upstream
      reply with the id of the message that was sent settles that call alone. */
  lemma SentIsAnswered(endHooks: seq<bool>, es: seq<Event>, body: string, more: seq<Event>, reply: Message)
      returns (id: int)
    ensures var p := Run(endHooks, es);
            Run(endHooks, es + [SendInternal(body, true)]).toUpstream ==
            p.toUpstream + [Json(Message(Some(id), body, false))]
    ensures var p := Run(endHooks, es + [SendInternal(body, true)] + more);
            var reached := FromUpstream(Json(reply), false, [], false);
            var q := Run(endHooks, es + [SendInternal(body, true)] + more + [reached]);
            reply.id == Some(id) && id in p.ids.pending && p.start != NotStarted ==>
              && q.ids.settled == p.ids.settled + [Settlement(id, !reply.failed)] && q.toClient == p.toClient
              && forall x :: x in q.ids.pending <==> x in p.ids.pending && x != id
  {
    id := SendMeaning(endHooks, es, body, true);
    var p := Run(endHooks, es + [SendInternal(body, true)] + more);
    if reply.id == Some(id) && id in p.ids.pending && p.start != NotStarted {
      ReplyMeaning(endHooks, es + [SendInternal(body, true)] + more, reply, id, false, [], false);
    }
  }

  /** Every pending call failed, in the order they were made, and nothing is pending any more. */
  predicate AllFailed(s: Ids, t: Ids) {
    && t.pending == [] && t.next == s.next
    && |t.settled| == |s.settled| + |s.pending| && t.settled[..|s.settled|] == s.settled
    && forall i :: 0 <= i < |s.pending| ==> t.settled[|s.settled| + i] == Settlement(s.pending[i], false)
  }

  lemma RejectedAllFailed(s: Ids)
    ensures AllFailed(s, AllRejected(s))
  {
  }

  /** A rejection fails every pending call. */
  lemma RejectMeaning(endHooks: seq<bool>, es: seq<Event>, e: Event)
    requires Rejecting(Run(endHooks, es), e)
    ensures AllFailed(Run(endHooks, es).ids, Run(endHooks, es + [e]).ids)
  {
    RejectedAllFailed(Run(endHooks, es).ids);
    RunThen(endHooks, es, e);
  }

  /** With a client that cannot keep up, everything but binary frames is lost, the reply to an
      internal call included: the call stays pending. */
  lemma CongestionLosesReplies(endHooks: seq<bool>, es: seq<Event>, data: Data, hooks: seq<ResponseHook>, dropped: bool)
    requires Run(endHooks, es).hasClient && !data.Binary?
    ensures Run(endHooks, es + [FromUpstream(data, true, hooks, dropped)]) == Run(endHooks, es)
  {
    RunThen(endHooks, es, FromUpstream(data, true, hooks, dropped));
  }

  // ---------------------------------------------------------------- the upstream socket

  /** Only internal calls and the client put anything on the upstream socket. */
  lemma OthersSendNothing(p: Pipe, e: Event)
    requires WellFormed(p) && !e.SendInternal? && !e.SendOneWay? && !e.FromClient?
    ensures Step(p, e).toUpstream == p.toUpstream
  {
  }

  /** A message upstream with an internal id. */
  predicate Internal(d: Data) {
    d.Json? && d.msg.id.Some? && INTERNAL_ID_BASE <= d.msg.id.value
  }

  /** What the client sends, as the hooks leave it, has no internal id. */
  ghost predicate ClientBelow(es: seq<Event>) {
    forall i :: 0 <= i < |es| && es[i].FromClient? && es[i].clientData.Json? ==>
      var command := Commanded(es[i].commandHooks, es[i].clientData.msg);
      command.Some? ==> !Internal(Json(command.value))
  }

  /** The internal ids sent upstream, in order. */
  function InternalIds(sent: seq<Data>): seq<int> {
    if sent == [] then [] else
      var last := sent[|sent| - 1];
      InternalIds(sent[..|sent| - 1]) + if Internal(last) then [last.msg.id.value] else []
  }

  predicate Ascending(ids: seq<int>, next: int) {
    && (forall i, j :: 0 <= i < j < |ids| ==> ids[i] < ids[j])
    && (forall i :: 0 <= i < |ids| ==> INTERNAL_ID_BASE <= ids[i] < next)
  }

  lemma AscendingPush(ids: seq<int>, id: int, later: int)
    requires Ascending(ids, id) && INTERNAL_ID_BASE <= id < later
    ensures Ascending(ids + [id], later)
  {
  }

  lemma AscendingMore(sent: seq<Data>, d: Data, next: int, later: int)
    requires Ascending(InternalIds(sent), next) && next <= later
    requires Internal(d) ==> d.msg.id.value == next < later
    ensures Ascending(InternalIds(sent + [d]), later)
  {
    var ids := InternalIds(sent);
    assert (sent + [d])[..|sent|] == sent;
    if Internal(d) {
      AscendingPush(ids, next, later);
    } else {
      assert InternalIds(sent + [d]) == ids;
    }
  }

  /** One event sends at most one message upstream; an internal id in it is the next one. */
  lemma SendsOne(p: Pipe, e: Event) returns (d: Data)
    requires WellFormed(p)
    requires e.FromClient? && e.clientData.Json? ==>
               Commanded(e.commandHooks, e.clientData.msg).None? ||
               !Internal(Json(Commanded(e.commandHooks, e.clientData.msg).value))
    ensures Step(p, e).toUpstream == p.toUpstream || Step(p, e).toUpstream == p.toUpstream + [d]
    ensures Internal(d) ==> d.msg.id.value == p.ids.next < Step(p, e).ids.next
  {
    d := Opaque("");
    if e.SendInternal? || e.SendOneWay? {
      d := Json(Message(Some(p.ids.next), e.body, false));
    } else if e.FromClient? && !e.clientData.Json? {
      d := e.clientData;
    } else if e.FromClient? && Commanded(e.commandHooks, e.clientData.msg).Some? {
      d := Json(Commanded(e.commandHooks, e.clientData.msg).value);
    }
  }

  lemma SentOnce(p: Pipe, e: Event)
    requires IdInv(p.ids) && WellFormed(p) && Ascending(InternalIds(p.toUpstream), p.ids.next)
    requires e.FromClient? && e.clientData.Json? ==>
               Commanded(e.commandHooks, e.clientData.msg).None? ||
               !Internal(Json(Commanded(e.commandHooks, e.clientData.msg).value))
    ensures Ascending(InternalIds(Step(p, e).toUpstream), Step(p, e).ids.next)
  {
    var d := SendsOne(p, e);
    NextGrows(p, e);
    assert Ascending(InternalIds(p.toUpstream), Step(p, e).ids.next);
    AscendingMore(p.toUpstream, d, p.ids.next, Step(p, e).ids.next);
  }

  /** As long as the client keeps below the internal ids, every internal id goes upstream at most once,
      in ascending order: no reply can be taken for another call's. */
  lemma {:induction false} InternalIdsSentOnce(endHooks: seq<bool>, es: seq<Event>)
    requires ClientBelow(es)
    ensures Ascending(InternalIds(Run(endHooks, es).toUpstream), Run(endHooks, es).ids.next)
  {
    if es != [] {
      InternalIdsSentOnce(endHooks, es[..|es| - 1]);
      SentOnce(Run(endHooks, es[..|es| - 1]), es[|es| - 1]);
    }
  }

  /** A client that does not: with the id of a plugin's pending call its command goes upstream all the
      same, and the answer to it settles the plugin's call and never reaches the client. */
  lemma ClientTakesInternalId(endHooks: seq<bool>, es: seq<Event>, command: Message, id: int)
    requires Run(endHooks, es).hasClient && Run(endHooks, es).start != NotStarted
    requires id in Run(endHooks, es).ids.pending && command.id == Some(id)
    ensures var p, asked := Run(endHooks, es), es + [FromClient(Json(command), [])];
            var q := Run(endHooks, asked + [FromUpstream(Json(command), false, [], false)]);
            && q.toUpstream == p.toUpstream + [Json(command)] && q.toClient == p.toClient
            && q.ids.settled == p.ids.settled + [Settlement(id, !command.failed)]
  {
    CommandMeaning(endHooks, es, command, [], [command]);
    ReplyMeaning(endHooks, es + [FromClient(Json(command), [])], command, id, false, [], false);
  }

  // ---------------------------------------------------------------- what the hooks make of a message

  /** The message before each command hook and after the last: none of them drops it. */
  ghost predicate CommandPath(hooks: seq<CommandHook>, msg: Message, path: seq<Message>) {
    && |path| == |hooks| + 1 && path[0] == msg
    && forall i :: 0 <= i < |hooks| ==> CommandPasses(hooks[i], path[i], path[i + 1])
  }

  /** The hook lets the message through, as `after`. */
  predicate CommandPasses(hook: CommandHook, before: Message, after: Message) {
    (hook(before) == Forward && after == before) || hook(before) == Rewrite(after)
  }

  lemma {:induction false} CommandedAlong(hooks: seq<CommandHook>, msg: Message, path: seq<Message>)
    requires CommandPath(hooks, msg, path)
    ensures Commanded(hooks, msg) == Some(path[|hooks|])
  {
    if hooks != [] {
      assert CommandPasses(hooks[0], path[0], path[1]);
      forall i | 0 <= i < |hooks| - 1 ensures CommandPasses(hooks[1..][i], path[1..][i], path[1..][i + 1]) {
        assert CommandPasses(hooks[i + 1], path[i + 1], path[i + 2]);
      }
      CommandedAlong(hooks[1..], path[1], path[1..]);
    }
  }

  lemma {:induction false} DroppedAlong(hooks: seq<CommandHook>, msg: Message, k: nat, path: seq<Message>)
    requires k < |hooks| && CommandPath(hooks[..k], msg, path) && hooks[k](path[k]) == Discard
    ensures Commanded(hooks, msg).None?
  {
    if k != 0 {
      assert CommandPasses(hooks[..k][0], path[0], path[1]);
      assert hooks[1..][..k - 1] == hooks[..k][1..];
      forall i | 0 <= i < k - 1 ensures CommandPasses(hooks[1..][..k - 1][i], path[1..][i], path[1..][i + 1]) {
        assert CommandPasses(hooks[..k][i + 1], path[i + 1], path[i + 2]);
      }
      DroppedAlong(hooks[1..], path[1], k - 1, path[1..]);
    }
  }

  /** Every message takes one of the two ways: through all hooks, or up to one that drops it. */
  lemma {:induction false} EitherWay(hooks: seq<CommandHook>, msg: Message) returns (k: nat, path: seq<Message>)
    ensures k <= |hooks| && CommandPath(hooks[..k], msg, path)
    ensures k < |hooks| ==> hooks[k](path[k]) == Discard
  {
    if hooks == [] {
      k, path := 0, [msg];
    } else {
      var n := |hooks| - 1;
      k, path := EitherWay(hooks[..n], msg);
      assert hooks[..n][..k] == hooks[..k];
      if k == n && hooks[n](path[n]) != Discard {
        var last := if hooks[n](path[n]) == Forward then path[n] else hooks[n](path[n]).msg;
        path := path + [last];
        k := n + 1;
        forall i | 0 <= i < k ensures CommandPasses(hooks[..k][i], path[i], path[i + 1]) {
          if i < n {
            assert CommandPasses(hooks[..n][i], path[i], path[i + 1]);
          }
        }
      }
    }
  }

  /** A client message goes upstream as the hooks one after the other leave it. */
  lemma CommandMeaning(endHooks: seq<bool>, es: seq<Event>, msg: Message, hooks: seq<CommandHook>, path: seq<Message>)
    requires Run(endHooks, es).hasClient && CommandPath(hooks, msg, path)
    ensures var p := Run(endHooks, es);
            Run(endHooks, es + [FromClient(Json(msg), hooks)]) ==
            p.(toUpstream := p.toUpstream + [Json(path[|hooks|])])
  {
    CommandedAlong(hooks, msg, path);
    RunThen(endHooks, es, FromClient(Json(msg), hooks));
  }

  /** It goes nowhere if one of them drops what the ones before it left; what is no message goes
      upstream as it is. */
  lemma DropMeaning(endHooks: seq<bool>, es: seq<Event>, data: Data, hooks: seq<CommandHook>, k: nat,
                    path: seq<Message>)
    requires Run(endHooks, es).hasClient
    ensures data.Json? && k < |hooks| && CommandPath(hooks[..k], data.msg, path) && hooks[k](path[k]) == Discard ==>
              Run(endHooks, es + [FromClient(data, hooks)]) == Run(endHooks, es)
    ensures !data.Json? ==>
              var p := Run(endHooks, es);
              Run(endHooks, es + [FromClient(data, hooks)]) == p.(toUpstream := p.toUpstream + [data])
  {
    if data.Json? && k < |hooks| && CommandPath(hooks[..k], data.msg, path) && hooks[k](path[k]) == Discard {
      DroppedAlong(hooks, data.msg, k, path);
    }
    RunThen(endHooks, es, FromClient(data, hooks));
  }

  /** The response before each hook and after the last; one that returns nothing changes nothing. */
  ghost predicate ResponsePath(hooks: seq<ResponseHook>, msg: Message, path: seq<Message>) {
    && |path| == |hooks| + 1 && path[0] == msg
    && forall i :: 0 <= i < |hooks| ==> ResponsePasses(hooks[i], path[i], path[i + 1])
  }

  predicate ResponsePasses(hook: ResponseHook, before: Message, after: Message) {
    (hook(before) == None && after == before) || hook(before) == Some(after)
  }

  lemma {:induction false} RewrittenAlong(hooks: seq<ResponseHook>, msg: Message, path: seq<Message>)
    requires ResponsePath(hooks, msg, path)
    ensures Rewritten(hooks, msg) == path[|hooks|]
  {
    if hooks != [] {
      var n := |hooks| - 1;
      forall i | 0 <= i < n ensures ResponsePasses(hooks[..n][i], path[..n + 1][i], path[..n + 1][i + 1]) {
        assert ResponsePasses(hooks[i], path[i], path[i + 1]);
      }
      RewrittenAlong(hooks[..n], msg, path[..n + 1]);
      assert ResponsePasses(hooks[n], path[n], path[n + 1]);
    }
  }

  /** An upstream response to the client's own command reaches the client as the hooks one after the
      other leave it. */
  lemma ResponseMeaning(endHooks: seq<bool>, es: seq<Event>, msg: Message, hooks: seq<ResponseHook>,
                        dropped: bool, path: seq<Message>)
    requires Run(endHooks, es).start != NotStarted && Run(endHooks, es).hasClient
    requires msg.id.Some? && msg.id.value < INTERNAL_ID_BASE && ResponsePath(hooks, msg, path)
    ensures var p := Run(endHooks, es);
            Run(endHooks, es + [FromUpstream(Json(msg), false, hooks, dropped)]) ==
            p.(toClient := p.toClient + [Json(path[|hooks|])])
  {
    RewrittenAlong(hooks, msg, path);
    RunThen(endHooks, es, FromUpstream(Json(msg), false, hooks, dropped));
  }

  /** Everything else from upstream reaches a client that keeps up just as it came: binary frames, text
      that does not parse, and events unless a plugin drops them; without a client it goes nowhere. */
  lemma ForwardMeaning(endHooks: seq<bool>, es: seq<Event>, data: Data, hooks: seq<ResponseHook>, dropped: bool)
    requires Run(endHooks, es).start != NotStarted && (data.Json? ==> data.msg.id.None?)
    ensures var p := Run(endHooks, es);
            Run(endHooks, es + [FromUpstream(data, false, hooks, dropped)]) ==
            if p.hasClient && !(data.Json? && dropped) then p.(toClient := p.toClient + [data]) else p
  {
    Forwards(Run(endHooks, es), data, hooks, dropped);
    RunThen(endHooks, es, FromUpstream(data, false, hooks, dropped));
  }

  lemma Forwards(p: Pipe, data: Data, hooks: seq<ResponseHook>, dropped: bool)
    requires WellFormed(p) && p.start != NotStarted && (data.Json? ==> data.msg.id.None?)
    ensures Step(p, FromUpstream(data, false, hooks, dropped)) ==
            if p.hasClient && !(data.Json? && dropped) then p.(toClient := p.toClient + [data]) else p
  {
  }

  // ---------------------------------------------------------------- starting and attaching

  /** A client is attached only while the pipeline is started and open, and no other event attaches or
      detaches one. */
  lemma AttachMeaning(p: Pipe, e: Event)
    requires WellFormed(p)
    ensures Step(p, e).hasClient ==
            if e.RunWith? && p.start != NotStarted && !p.closed then e.client else p.hasClient
  {
  }

  /** The end is reached exactly by the final cleanup after the last end hook, and is not left again. */
  lemma FinishMeaning(p: Pipe, e: Event)
    requires Inv(p)
    ensures Step(p, e).endPhase == Finished <==>
            p.endPhase == Finished || (e.FinallyRuns? && p.endPhase == HooksOver)
  {
  }

  /** A new pipeline: nobody attached, nothing sent, started or handed out; its first internal id is 2^30. */
  lemma NothingYet(endHooks: seq<bool>)
    ensures var p := Run(endHooks, []);
            && p.start == NotStarted && !p.closed && !p.hasClient && p.toClient == [] && p.toUpstream == []
            && p.ended == [] && p.ids.pending == [] && p.ids.settled == [] && p.ids.next == 1_073_741_824
  {
  }

  /** The pipeline is ready exactly by the last start hook that succeeds while it is open; a hook that
      fails, or a close that came before, makes the start fail; neither is undone. */
  lemma StartMeaning(p: Pipe, e: Event)
    requires WellFormed(p)
    ensures Step(p, e).start ==
            if e.Start? && p.start == NotStarted then Starting
            else if p.start != Starting then p.start
            else if e.StartHookFailed? || (e.StartHookOk? && p.closed) then StartFailed
            else if e.StartHookOk? && !e.more then Ready
            else Starting
    ensures Step(p, e).closed <==>
            p.closed || (e.StartHookFailed? && p.start == Starting) || (e.Finalize? && p.start != NotStarted)
  {
  }
}
