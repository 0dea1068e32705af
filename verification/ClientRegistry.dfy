/**
 * The subscriptions the client engine remembers (packages/client/src/engine.ts): after every event each
 * id is known as it was last asked for, with the retries its failures have used up.
 */
module ClientRegistry {
  import opened Common
  import opened ClientProtocol
  import opened ClientSafety

  /** What is remembered of one id. */
  datatype Known = Known(path: string, args: string, retries: nat, hasOnError: bool)

  ghost function KnownAs(r: Registry, id: string): Option<Known> {
    match Find(r.subs, id)
    case Some(sub) => Some(Known(sub.path, sub.args, sub.retryableErrors, id in r.errorHandlers))
    case None => None
  }

  /** What an event makes of an id: only calls and frames about that id count. */
  function KnownNext(known: Option<Known>, e: Event, id: string): Option<Known> {
    match e
    case AddSub(added, path, args, hasOnError) => if added == id then Some(Known(path, args, 0, hasOnError)) else known
    case RemoveSub(removed) => if removed == id then None else known
    case Deliver(_, Subscribed(subject)) => if subject == id && known.Some? then Some(known.value.(retries := 0)) else known
    case Deliver(_, SubscriptionError(Some(subject), retryable)) =>
      if subject != id || known.None? then known
      else if retryable && known.value.retries < MAX_RETRYABLE_SUBSCRIPTION_ERRORS then Some(known.value.(retries := known.value.retries + 1))
      else None
    case _ => known
  }

  /** The ids in the order a replay sends them. */
  function IdList(subs: seq<Sub>): seq<string> {
    if subs == [] then [] else [subs[0].id] + IdList(subs[1..])
  }

  function Filtered(ids: seq<string>, id: string): seq<string> {
    if ids == [] then [] else (if ids[0] == id then [] else [ids[0]]) + Filtered(ids[1..], id)
  }

  /** A new id goes last, one that is dropped leaves its place, and nothing else moves. */
  ghost function IdListNext(r: Registry, e: Event): seq<string> {
    var ids := IdList(r.subs);
    match e
    case AddSub(id, _, _, _) => if KnownAs(r, id).Some? then ids else ids + [id]
    case RemoveSub(id) => Filtered(ids, id)
    case Deliver(_, SubscriptionError(Some(id), _)) => if KnownNext(KnownAs(r, id), e, id).Some? then ids else Filtered(ids, id)
    case _ => ids
  }

  // ---------------------------------------------------------------------------------------
  // The insertion-ordered map
  // ---------------------------------------------------------------------------------------

  lemma {:induction false} FindAfterPut(subs: seq<Sub>, sub: Sub, id: string)
    ensures Find(Put(subs, sub), id) == if id == sub.id then Some(sub) else Find(subs, id)
    ensures IdList(Put(subs, sub)) == if Find(subs, sub.id).Some? then IdList(subs) else IdList(subs) + [sub.id]
  {
    if subs != [] {
      var rest := subs[1..];
      if subs[0].id == sub.id {
        assert ([sub] + rest)[1..] == rest;
      } else {
        FindAfterPut(rest, sub, id);
        assert ([subs[0]] + Put(rest, sub))[1..] == Put(rest, sub);
      }
    }
  }

  lemma {:induction false} FindAfterRemove(subs: seq<Sub>, gone: string, id: string)
    ensures Find(Remove(subs, gone), id) == if id == gone then None else Find(subs, id)
    ensures IdList(Remove(subs, gone)) == Filtered(IdList(subs), gone)
  {
    if subs != [] {
      var rest := subs[1..];
      FindAfterRemove(rest, gone, id);
      assert ([subs[0]] + Remove(rest, gone))[1..] == Remove(rest, gone);
      assert ([subs[0].id] + IdList(rest))[1..] == IdList(rest);
    }
  }

  lemma {:induction false} NothingFiltered(subs: seq<Sub>, id: string)
    requires Find(subs, id).None?
    ensures Filtered(IdList(subs), id) == IdList(subs)
  {
    if subs != [] {
      NothingFiltered(subs[1..], id);
      assert ([subs[0].id] + IdList(subs[1..]))[1..] == IdList(subs[1..]);
    }
  }

  // ---------------------------------------------------------------------------------------
  // Parts of a step
  // ---------------------------------------------------------------------------------------

  lemma CloseForgetsNothing(s: State, code: nat, generation: nat)
    ensures HandleClose(s, code, generation).registry == s.registry
  {
    hide RejectAllPending, Lose;
  }

  lemma SendForgetsNothing(s: State, io: Carrier, frame: Frame, generation: nat)
    ensures SendOrClose(s, io, frame, generation).registry == s.registry
  {
    hide HandleClose;
    if s.link.pipe.Some? {
      CloseForgetsNothing(Emit(s, Closed(s.link.pipe.value)), 1006, generation);
    }
  }

  lemma {:induction false} SendEachForgetsNothing(s: State, io: Carrier, subs: seq<Sub>)
    ensures SendEach(s, io, subs).registry == s.registry
  {
    hide SendOrClose;
    if subs != [] {
      var init, last := subs[..|subs| - 1], subs[|subs| - 1];
      SendEachForgetsNothing(s, io, init);
      SendForgetsNothing(SendEach(s, io, init), io, Subscribe(last.id, last.path, last.args), s.link.generation);
    }
  }

  /** The registry becomes `next`: what is known of `id` and the order of ids are as the event says. */
  ghost predicate Follows(r: Registry, e: Event, next: Registry, id: string) {
    KnownAs(next, id) == KnownNext(KnownAs(r, id), e, id) && IdList(next.subs) == IdListNext(r, e)
  }

  lemma AddFollows(s: State, io: Carrier, e: Event, id: string)
    requires e.AddSub?
    ensures Follows(s.registry, e, DoSubscribe(s, io, e.id, e.path, e.args, e.hasOnError).registry, id)
  {
    hide SendOrClose, Put, Find;
    var r, sub := s.registry, Sub(e.id, e.path, e.args, 0);
    FindAfterPut(r.subs, sub, id);
    SendForgetsNothing(s.(registry := Registry(r.handlers + {e.id}, if e.hasOnError then r.errorHandlers + {e.id} else r.errorHandlers - {e.id},
                                               Put(r.subs, sub))),
                       io, Subscribe(e.id, e.path, e.args), s.link.generation);
  }

  lemma RemoveFollows(s: State, io: Carrier, e: Event, id: string)
    requires e.RemoveSub?
    ensures Follows(s.registry, e, DoUnsubscribe(s, io, e.id).registry, id)
  {
    hide SendOrClose, Remove, Find;
    FindAfterRemove(s.registry.subs, e.id, id);
    SendForgetsNothing(s.(registry := DropFrom(s.registry, e.id)), io, Unsubscribe(e.id), s.link.generation);
  }

  lemma ErrorFollows(s: State, io: Carrier, e: Event, id: string)
    requires e.Deliver? && e.msg.SubscriptionError? && e.msg.subject.Some?
    ensures Follows(s.registry, e, RetryOrDrop(s, io, e.msg.subject.value, e.msg.retryable).registry, id)
  {
    hide SendOrClose, Remove, Find, Put, Follows;
    var r, subject := s.registry, e.msg.subject.value;
    var found := Find(r.subs, subject);
    if !e.msg.retryable || found.None? {
      DropFollows(r, e, id);
    } else {
      var sub := found.value.(retryableErrors := found.value.retryableErrors + 1);
      CountFollows(r, e, sub, id);
      SendForgetsNothing(s.(registry := r.(subs := Put(r.subs, sub))), io, Subscribe(subject, sub.path, sub.args), s.link.generation);
    }
  }

  lemma DropFollows(r: Registry, e: Event, id: string)
    requires e.Deliver? && e.msg.SubscriptionError? && e.msg.subject.Some?
    requires !e.msg.retryable || Find(r.subs, e.msg.subject.value).None?
    ensures Follows(r, e, DropFrom(r, e.msg.subject.value), id)
  {
    hide Remove, Find;
    FindAfterRemove(r.subs, e.msg.subject.value, id);
    if Find(r.subs, e.msg.subject.value).None? {
      NothingFiltered(r.subs, e.msg.subject.value);
    }
  }

  lemma CountFollows(r: Registry, e: Event, sub: Sub, id: string)
    requires e.Deliver? && e.msg.SubscriptionError? && e.msg.subject.Some? && e.msg.retryable
    requires Find(r.subs, e.msg.subject.value).Some?
    requires sub == Find(r.subs, e.msg.subject.value).value.(retryableErrors := Find(r.subs, e.msg.subject.value).value.retryableErrors + 1)
    ensures var counted := r.(subs := Put(r.subs, sub));
            if sub.retryableErrors > MAX_RETRYABLE_SUBSCRIPTION_ERRORS then Follows(r, e, DropFrom(counted, e.msg.subject.value), id)
            else Follows(r, e, counted, id)
  {
    hide Remove, Find, Put;
    var subject := e.msg.subject.value;
    FoundIsNamed(r.subs, subject);
    FindAfterPut(r.subs, sub, id);
    FindAfterRemove(Put(r.subs, sub), subject, id);
    assert KnownAs(r, subject).value.retries + 1 == sub.retryableErrors;
  }

  lemma FoundIsNamed(subs: seq<Sub>, id: string)
    ensures Find(subs, id).Some? ==> Find(subs, id).value.id == id
  {}

  lemma MessageFollows(s: State, io: Carrier, e: Event, id: string)
    requires Happens(s, e) && e.Deliver?
    ensures Follows(s.registry, e, HandleMessage(s, io, e.msg).registry, id)
  {
    hide SendEach, RetryOrDrop, Settle, RejectActions, Find, Put;
    var ready := s.(link := s.link.(reconnectAttempt := 0));
    match e.msg
    case Authenticated => SendEachForgetsNothing(ready.(link := ClearAckTimer(ready.link.(authenticated := true))), io, s.registry.subs);
    case Subscribed(subject) =>
      FoundIsNamed(s.registry.subs, subject);
      if Find(s.registry.subs, subject).Some? {
        FindAfterPut(s.registry.subs, Find(s.registry.subs, subject).value.(retryableErrors := 0), id);
      }
    case SubscriptionError(subject, _) =>
      if subject.Some? {
        ErrorFollows(ready, io, e, id);
      }
    case Invalidate(_) =>
    case Result(_, _) =>
    case CallError(_, _) =>
  }

  lemma LinkFollows(s: State, io: Carrier, e: Event)
    requires Happens(s, e) && (e.CloseEvent? || e.SendRejected? || e.AckTimeout? || e.ReadySettles?)
    ensures Next(s, io, e).registry == s.registry
  {
    hide HandleClose, SendOrClose, SendEach;
    match e
    case CloseEvent(pipe, code) => CloseForgetsNothing(s, code, pipe);
    case SendRejected(pipe) => CloseForgetsNothing(Emit(s, Closed(pipe)), 1006, pipe);
    case AckTimeout(g) =>
      var gone := s.(link := TimerGone(s.link, g));
      if gone.link.pipe.Some? {
        CloseForgetsNothing(Emit(gone, Closed(gone.link.pipe.value)).(link := DetachPipe(gone.link).(pipe := None)), 4002, g);
      }
    case ReadySettles(g, ok) =>
      CloseForgetsNothing(s, 1006, g);
      var up := s.(link := s.link.(connected := true, authenticated := !s.link.requiresAuth));
      SendForgetsNothing(up, io, Auth(s.link.runs[g].token), g);
      SendEachForgetsNothing(up, io, up.registry.subs);
  }

  /** Every event leaves each subscription known as it was last asked for, with the retries it has used up since it was last acknowledged. */
  lemma StepFollows(s: State, io: Carrier, e: Event, id: string)
    requires Happens(s, e)
    ensures Follows(s.registry, e, Next(s, io, e).registry, id)
  {
    hide HandleClose, HandleMessage, AfterReady, FailAuthAck, DoSubscribe, DoUnsubscribe, DoInvoke, RejectAllPending, KnownAs, IdList;
    match e
    case Deliver(_, _) => MessageFollows(s, io, e, id);
    case AddSub(_, _, _, _) => AddFollows(s, io, e, id);
    case RemoveSub(_) => RemoveFollows(s, io, e, id);
    case Request(kind, path, args) => assert DoInvoke(s, io, kind, path, args).registry == s.registry by { CallFollows(s, io, kind, path, args); }
    case CloseEvent(_, _) => LinkFollows(s, io, e);
    case SendRejected(_) => LinkFollows(s, io, e);
    case AckTimeout(_) => LinkFollows(s, io, e);
    case ReadySettles(_, _) => LinkFollows(s, io, e);
    case _ =>
  }

  lemma CallFollows(s: State, io: Carrier, kind: CallType, path: string, args: string)
    ensures DoInvoke(s, io, kind, path, args).registry == s.registry
  {}

  // ---------------------------------------------------------------------------------------
  // Runs
  // ---------------------------------------------------------------------------------------

  /** The history of one id, folded over the events of a run. */
  function KnownAfter(known: Option<Known>, events: seq<Event>, id: string): Option<Known>
    decreases |events|
  {
    if events == [] then known else KnownAfter(KnownNext(known, events[0], id), events[1..], id)
  }

  /** In every run what is known of an id depends on the calls and frames about it alone. */
  lemma {:induction false} RunFollows(s: State, io: Carrier, events: seq<Event>, id: string)
    requires Runs(s, io, events)
    ensures KnownAs(Take(s, io, events).registry, id) == KnownAfter(KnownAs(s.registry, id), events, id)
    decreases |events|
  {
    hide Happens, Next, KnownAs, KnownNext;
    if events != [] {
      StepFollows(s, io, events[0], id);
      RunFollows(Next(s, io, events[0]), io, events[1..], id);
    }
  }
}
