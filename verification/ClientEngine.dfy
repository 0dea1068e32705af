/**
 * The client engine's methods (packages/client/src/engine.ts, `createEngine`), each shown to take
 * the step `ClientProtocol` gives it.
 */
module ClientEngine {
  import opened Common
  import opened ClientProtocol
  import opened ClientSafety

  class Engine {
    const carrier: Carrier

    var link: Link
    var registry: Registry
    var calls: Calls
    var log: seq<Effect>

    ghost function Model(): State
      reads this
    {
      State(link, registry, calls, log)
    }

    constructor (requiresAuth: bool, carrier: Carrier)
      ensures Model() == Created(requiresAuth) && this.carrier == carrier
    {
      this.carrier := carrier;
      var start := Created(requiresAuth);
      link, registry, calls, log := start.link, start.registry, start.calls, [];
    }

    method ClearAuthAckTimer()
      modifies this`link
      ensures link == ClearAckTimer(old(link))
    {
      if link.ackTimer.Some? {
        link := link.(timers := link.timers - {link.ackTimer.value});
        link := link.(ackTimer := None);
      }
    }

    method Detach()
      modifies this`link
      ensures link == DetachPipe(old(link))
    {
      if link.detach.Some? {
        link := link.(listening := link.listening - {link.detach.value});
        link := link.(detach := None);
      }
    }

    /** Empty the map first, then settle what was in it. */
    method RejectAll(reason: string)
      modifies this`calls
      ensures calls == RejectAllPending(old(calls), reason)
    {
      if calls.pending == map[] {
        assert calls.outcomes == RejectAllPending(calls, reason).outcomes;
        return;
      }
      var snapshot := calls.pending.Keys;
      calls := calls.(pending := map[]);
      SettleEach(snapshot, reason);
      assert calls.outcomes == RejectAllPending(old(calls), reason).outcomes;
    }

    /** Settle promises whose entries are gone from the map. */
    method SettleEach(ids: set<nat>, reason: string)
      modifies this`calls
      ensures calls == old(calls).(settled := old(calls).settled + multiset(ids), outcomes := AllRejected(old(calls).outcomes, ids, reason))
    {
      hide AllRejected;
      ghost var start := calls;
      var waiting := ids;
      ghost var done: set<nat> := {};
      NoneRejected(calls.outcomes, reason);
      while waiting != {}
        invariant done + waiting == ids && done !! waiting
        invariant calls == start.(settled := start.settled + multiset(done), outcomes := AllRejected(start.outcomes, done, reason))
      {
        var id :| id in waiting;
        OneMore(done, id);
        OneMoreRejected(start.outcomes, done, id, reason);
        calls := calls.(settled := calls.settled + multiset{id}, outcomes := calls.outcomes[id := Rejected(reason)]);
        waiting := waiting - {id};
        done := done + {id};
      }
    }

    method Schedule()
      modifies this`link
      ensures link == ScheduleReconnect(old(link))
    {
      if link.authFailed || link.reconnectTimer {
        return;
      }
      link := link.(reconnectAttempt := link.reconnectAttempt + 1);
      link := link.(reconnectTimer := true);
    }

    /** Call every handler. */
    method NotifyAll()
      modifies this`log
      ensures log == old(log) + [Notified(registry.handlers)]
    {
      var told, waiting := {}, registry.handlers;
      while waiting != {}
        invariant told + waiting == registry.handlers
      {
        var id :| id in waiting;
        waiting := waiting - {id};
        told := told + {id};
      }
      log := log + [Notified(told)];
    }

    method Close(code: nat, ownGeneration: nat)
      modifies this
      ensures Model() == HandleClose(old(Model()), code, ownGeneration)
    {
      hide RejectAllPending;
      if ownGeneration != link.generation {
        return;
      }
      Detach();
      link := link.(pipe := None);
      link := link.(connected := false, authenticated := false);
      ClearAuthAckTimer();
      RejectAll("pipe closed");
      if code == 4001 {
        link := link.(authFailed := true);
        NotifyAll();
        return;
      }
      Schedule();
    }

    method Send(frame: Frame, generation: nat)
      modifies this
      ensures Model() == SendOrClose(old(Model()), carrier, frame, generation)
    {
      hide HandleClose;
      if link.pipe.None? {
        return;
      }
      if carrier(|log|) {
        log := log + [Sent(link.pipe.value, frame)];
      } else {
        log := log + [Closed(link.pipe.value)];
        Close(1006, generation);
      }
    }

    method SendAll()
      modifies this
      ensures Model() == SendSubscriptions(old(Model()), carrier)
    {
      if link.pipe.None? || !link.authenticated {
        return;
      }
      hide SendOrClose;
      var subs := registry.subs;
      ghost var start := Model();
      for i := 0 to |subs|
        invariant Model() == SendEach(start, carrier, subs[..i]) && link.generation == start.link.generation
      {
        assert subs[..i + 1][..i] == subs[..i];
        SendKeepsGeneration(Model(), carrier, Subscribe(subs[i].id, subs[i].path, subs[i].args), start.link.generation);
        Send(Subscribe(subs[i].id, subs[i].path, subs[i].args), link.generation);
      }
      assert subs[..|subs|] == subs;
    }

    // -------------------------------------------------------------------------------------
    // Messages
    // -------------------------------------------------------------------------------------

    method Drop(id: string)
      modifies this`registry, this`log
      ensures Model() == DropSubscription(old(Model()), id)
    {
      var hasOnError := id in registry.errorHandlers;
      registry := registry.(handlers := registry.handlers - {id});
      registry := registry.(subs := Remove(registry.subs, id));
      registry := registry.(errorHandlers := registry.errorHandlers - {id});
      if hasOnError {
        log := log + [Failed(id)];
      }
    }

    /** False when the subscription is unknown or has used up its retries; the count is kept. */
    method Retry(id: string) returns (retried: bool)
      modifies this
      ensures retried ==> Model() == RetryOrDrop(old(Model()), carrier, id, true)
      ensures !retried ==> DropSubscription(Model(), id) == RetryOrDrop(old(Model()), carrier, id, true)
    {
      hide SendOrClose, DropSubscription;
      var found := Find(registry.subs, id);
      if found.None? {
        return false;
      }
      var sub := found.value.(retryableErrors := found.value.retryableErrors + 1);
      registry := registry.(subs := Put(registry.subs, sub));
      if sub.retryableErrors > MAX_RETRYABLE_SUBSCRIPTION_ERRORS {
        return false;
      }
      Send(Subscribe(id, sub.path, sub.args), link.generation);
      retried := true;
    }

    /** A subscription's error: retry it while it may be, else tell its owner and forget it. */
    method Refuse(id: string, retryable: bool)
      modifies this
      ensures Model() == RetryOrDrop(old(Model()), carrier, id, retryable)
    {
      hide SendOrClose, DropSubscription;
      if retryable {
        var retried := Retry(id);
        if retried {
          return;
        }
      }
      Drop(id);
    }

    method SettleCall(call: nat, outcome: Outcome)
      modifies this`calls
      ensures calls == if call in old(calls).pending then Settle(old(calls), call, outcome) else old(calls)
    {
      if call in calls.pending {
        calls := calls.(pending := calls.pending - {call});
        calls := calls.(settled := calls.settled + multiset{call}, outcomes := calls.outcomes[call := outcome]);
      }
    }

    /** A server that does not know action frames answers them without an id. */
    method RejectPendingActions()
      modifies this`calls
      ensures calls == RejectActions(old(calls))
    {
      var actions := set id | id in calls.pending && calls.pending[id] == Action;
      calls := calls.(pending := calls.pending - actions);
      SettleEach(actions, "Server does not support Action frames");
      assert calls.outcomes == RejectActions(old(calls)).outcomes;
    }

    method Receive(msg: ServerMessage)
      modifies this
      ensures Model() == HandleMessage(old(Model()), carrier, msg)
    {
      hide SendSubscriptions, RetryOrDrop, Settle, RejectActions, ClearAckTimer;
      link := link.(reconnectAttempt := 0);
      match msg
      case Authenticated =>
        if link.authenticated {
          return;
        }
        link := link.(authenticated := true);
        ClearAuthAckTimer();
        SendAll();
      case Subscribed(id) =>
        var found := Find(registry.subs, id);
        if found.Some? {
          registry := registry.(subs := Put(registry.subs, found.value.(retryableErrors := 0)));
        }
      case Invalidate(id) =>
        if id in registry.handlers {
          log := log + [Notified({id})];
        }
      case Result(call, data) => SettleCall(call, Resolved(data));
      case SubscriptionError(subject, retryable) =>
        if subject.Some? {
          Refuse(subject.value, retryable);
        }
      case CallError(target, error) =>
        if target.Some? {
          SettleCall(target.value, Rejected(error));
        } else if error == "invalid message" {
          RejectPendingActions();
        }
    }

    method AckTimeoutFires(ownGeneration: nat)
      requires ownGeneration in link.timers
      modifies this
      ensures Model() == Next(old(Model()), carrier, AckTimeout(ownGeneration))
    {
      hide HandleClose;
      link := link.(timers := link.timers - {ownGeneration}, ackTimer := None);
      if ownGeneration != link.generation || link.pipe.None? {
        return;
      }
      var target := link.pipe.value;
      Detach();
      link := link.(pipe := None);
      log := log + [Closed(target)];
      Close(4002, ownGeneration);
    }

    // -------------------------------------------------------------------------------------
    // Connecting
    // -------------------------------------------------------------------------------------

    method Connect()
      modifies this`link
      ensures Model() == DoConnect(old(Model()))
    {
      if link.authFailed || link.pipe.Some? || link.connecting {
        return;
      }
      link := link.(connecting := true, generation := link.generation + 1);
      link := link.(runs := link.runs[link.generation := AwaitToken]);
    }

    method ReconnectTimerFires()
      requires link.reconnectTimer
      modifies this`link
      ensures Model() == Next(old(Model()), carrier, ReconnectFires)
    {
      link := link.(reconnectTimer := false);
      Connect();
    }

    /** `finally` of the attempt's asynchronous part. */
    method End(generation: nat)
      modifies this`link
      ensures link == Finish(old(link), generation)
    {
      link := link.(runs := link.runs - {generation});
      if generation == link.generation {
        link := link.(connecting := false);
      }
    }

    /** `catch` of the attempt's asynchronous part. */
    method EndWithError(generation: nat)
      modifies this`link
      ensures link == FinishWithError(old(link), generation)
    {
      if generation == link.generation {
        Schedule();
      }
      End(generation);
    }

    /** After `getToken`; `None` when it threw. */
    method ResumeWithToken(generation: nat, token: Option<Option<string>>)
      requires generation in link.runs && link.runs[generation].AwaitToken?
      modifies this`link
      ensures Model() == AfterToken(old(Model()), generation, token)
    {
      hide Finish, FinishWithError;
      if token.None? {
        EndWithError(generation);
      } else if generation != link.generation || link.authFailed {
        End(generation);
      } else {
        link := link.(runs := link.runs[generation := AwaitPipe(token.value)]);
      }
    }

    /** After `createPipe`. */
    method ResumeWithPipe(generation: nat, ok: bool)
      requires generation in link.runs && link.runs[generation].AwaitPipe?
      modifies this`link, this`log
      ensures Model() == AfterPipe(old(Model()), generation, ok)
    {
      hide Finish, FinishWithError;
      if !ok {
        EndWithError(generation);
      } else if generation != link.generation || link.authFailed {
        log := log + [Closed(generation)];
        End(generation);
      } else {
        log := log + [Opened(generation)];
        link := link.(pipe := Some(generation), openedPipes := link.openedPipes + {generation});
        link := link.(listening := link.listening + {generation}, detach := Some(generation));
        link := link.(runs := link.runs[generation := AwaitReady(link.runs[generation].token)]);
      }
    }

    /** After the pipe's `ready`. */
    method ResumeReady(generation: nat, ok: bool)
      requires generation in link.runs && link.runs[generation].AwaitReady?
      modifies this
      ensures Model() == AfterReady(old(Model()), carrier, generation, ok)
    {
      hide HandleClose, SendSubscriptions, StartAuth, Finish;
      if !ok {
        if link.pipe == Some(generation) {
          Close(1006, generation);
        }
      } else if generation != link.generation || link.authFailed || link.pipe != Some(generation) {
        log := log + [Closed(generation)];
      } else {
        GoUp(generation, link.runs[generation].token);
      }
      End(generation);
    }

    method GoUp(generation: nat, token: Option<string>)
      modifies this
      ensures var up := old(Model()).(link := old(link).(connected := true, authenticated := !old(link).requiresAuth));
              Model() == if old(link).requiresAuth then StartAuth(up, carrier, token, generation) else SendSubscriptions(up, carrier)
    {
      hide SendSubscriptions, SendOrClose;
      var requiresAuth := link.requiresAuth;
      link := link.(connected := true);
      link := link.(authenticated := !requiresAuth);
      if requiresAuth {
        Send(Auth(token), generation);
        link := link.(ackTimer := Some(generation), timers := link.timers + {generation});
      } else {
        SendAll();
      }
    }

    method Disconnect()
      modifies this
      ensures Model() == DoDisconnect(old(Model()))
    {
      hide RejectAllPending;
      link := link.(generation := link.generation + 1, connecting := false);
      link := link.(reconnectTimer := false);
      ClearAuthAckTimer();
      link := link.(connected := false, authenticated := false);
      link := link.(authFailed := false);
      RejectAll("disconnected");
      var target := link.pipe;
      link := link.(pipe := None);
      if target.Some? {
        Detach();
        log := log + [Closed(target.value)];
      }
    }

    // -------------------------------------------------------------------------------------
    // Public calls
    // -------------------------------------------------------------------------------------

    method AddSubscription(id: string, path: string, args: string, hasOnError: bool)
      modifies this
      ensures Model() == DoSubscribe(old(Model()), carrier, id, path, args, hasOnError)
    {
      hide SendOrClose, Put;
      registry := registry.(handlers := registry.handlers + {id});
      if hasOnError {
        registry := registry.(errorHandlers := registry.errorHandlers + {id});
      } else {
        registry := registry.(errorHandlers := registry.errorHandlers - {id});
      }
      registry := registry.(subs := Put(registry.subs, Sub(id, path, args, 0)));
      if link.pipe.Some? && link.authenticated {
        Send(Subscribe(id, path, args), link.generation);
      }
    }

    method RemoveSubscription(id: string)
      modifies this
      ensures Model() == DoUnsubscribe(old(Model()), carrier, id)
    {
      hide SendOrClose, Remove;
      registry := registry.(handlers := registry.handlers - {id});
      registry := registry.(errorHandlers := registry.errorHandlers - {id});
      registry := registry.(subs := Remove(registry.subs, id));
      if link.pipe.Some? && link.authenticated {
        Send(Unsubscribe(id), link.generation);
      }
    }

    /** `None` when the call is refused before it has an id. */
    method Request(kind: CallType, path: string, args: string) returns (call: Option<nat>)
      modifies this`calls, this`log
      ensures Model() == DoInvoke(old(Model()), carrier, kind, path, args)
      ensures call == if CanInvoke(old(link)) then Some(old(calls).callSeq + 1) else None
    {
      if link.pipe.None? || !link.connected || (link.requiresAuth && !link.authenticated) {
        return None;
      }
      var id := calls.callSeq + 1;
      calls := calls.(callSeq := id, pending := calls.pending[id := kind]);
      if carrier(|log|) {
        log := log + [Sent(link.pipe.value, Frame.Invoke(kind, id, path, args))];
      } else {
        SettleCall(id, Rejected("send failed"));
      }
      call := Some(id);
    }

    /** Any sequence of calls, messages, timers and resumed awaits takes the steps of the protocol. */
    method Drive(events: seq<Event>)
      requires Runs(Model(), carrier, events)
      modifies this
      ensures Model() == Take(old(Model()), carrier, events)
    {
      hide Happens, Next, Model;
      ghost var start := Model();
      for i := 0 to |events|
        invariant Runs(Model(), carrier, events[i..])
        invariant Take(Model(), carrier, events[i..]) == Take(start, carrier, events)
      {
        assert events[i..][1..] == events[i + 1..];
        Perform(events[i]);
      }
    }

    method Perform(e: Event)
      requires Happens(Model(), e)
      modifies this
      ensures Model() == Next(old(Model()), carrier, e)
    {
      hide HandleClose, HandleMessage, FailAuthAck, DoConnect, DoDisconnect, DoSubscribe, DoUnsubscribe, DoInvoke, AfterToken, AfterPipe, AfterReady;
      match e
      case Connect => Connect();
      case Disconnect => Disconnect();
      case AddSub(id, path, args, hasOnError) => AddSubscription(id, path, args, hasOnError);
      case RemoveSub(id) => RemoveSubscription(id);
      case Request(kind, path, args) => var _ := Request(kind, path, args);
      case Deliver(_, msg) => Receive(msg);
      case CloseEvent(pipe, code) => Close(code, pipe);
      case SendRejected(pipe) =>
        log := log + [Closed(pipe)];
        Close(1006, pipe);
      case ReconnectFires => ReconnectTimerFires();
      case AckTimeout(generation) => AckTimeoutFires(generation);
      case TokenSettles(generation, token) => ResumeWithToken(generation, token);
      case PipeSettles(generation, ok) => ResumeWithPipe(generation, ok);
      case ReadySettles(generation, ok) => ResumeReady(generation, ok);
    }
  }

  lemma SendKeepsGeneration(s: State, io: Carrier, frame: Frame, generation: nat)
    ensures SendOrClose(s, io, frame, generation).link.generation == s.link.generation
  {
    hide RejectAllPending;
  }

  function AllRejected(outcomes: map<nat, Outcome>, calls: set<nat>, reason: string): map<nat, Outcome> {
    map id | id in outcomes.Keys + calls :: if id in calls then Rejected(reason) else outcomes[id]
  }

  lemma NoneRejected(outcomes: map<nat, Outcome>, reason: string)
    ensures AllRejected(outcomes, {}, reason) == outcomes
  {}

  lemma OneMoreRejected(outcomes: map<nat, Outcome>, calls: set<nat>, id: nat, reason: string)
    ensures AllRejected(outcomes, calls + {id}, reason) == AllRejected(outcomes, calls, reason)[id := Rejected(reason)]
  {}

  lemma OneMore(calls: set<nat>, id: nat)
    requires id !in calls
    ensures multiset(calls + {id}) == multiset(calls) + multiset{id}
  {}
}
