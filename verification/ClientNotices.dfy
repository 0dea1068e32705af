/**
 * What leaves the client engine (packages/client/src/engine.ts): whom each event notifies, and which
 * frames go out beside the `subscribe` frames that `ClientSafety` accounts for.
 */
module ClientNotices {
  import opened Common
  import opened ClientProtocol
  import opened ClientSafety
  import ClientOutcomes
  import ClientReconnect

  /** Notices to the application, opened pipes, and frames other than `subscribe`. */
  predicate Heard(e: Effect) {
    !e.Closed? && !(e.Sent? && e.frame.Subscribe?)
  }

  function HeardIn(log: seq<Effect>): seq<Effect> {
    if log == [] then []
    else HeardIn(log[..|log| - 1]) + if Heard(log[|log| - 1]) then [log[|log| - 1]] else []
  }

  /** The subscription has used up its retries, or there is none. */
  predicate OutOfRetries(r: Registry, id: string) {
    forall sub :: sub in r.subs && sub.id == id ==> sub.retryableErrors >= MAX_RETRYABLE_SUBSCRIPTION_ERRORS
  }

  /** All that an event lets be heard: nothing, or the one notice or frame it is for. */
  ghost function Hears(s: State, io: Carrier, e: Event): seq<Effect>
    requires Happens(s, e)
  {
    var goesOut, pipe := s.link.pipe.Some? && io(|s.log|), s.link.pipe;
    match e
    case Deliver(_, Invalidate(id)) => if id in s.registry.handlers then [Notified({id})] else []
    case Deliver(_, SubscriptionError(Some(id), retryable)) =>
      if id in s.registry.errorHandlers && (retryable ==> OutOfRetries(s.registry, id)) then [Failed(id)] else []
    case CloseEvent(closed, 4001) => if closed == s.link.generation then [Notified(s.registry.handlers)] else []
    case RemoveSub(id) => if goesOut && s.link.authenticated then [Sent(pipe.value, Unsubscribe(id))] else []
    case Request(kind, path, args) =>
      if goesOut && CanInvoke(s.link) then [Sent(pipe.value, Frame.Invoke(kind, s.calls.callSeq + 1, path, args))] else []
    case PipeSettles(generation, true) => if Outdated(s.link, generation) then [] else [Opened(generation)]
    case ReadySettles(generation, true) =>
      if goesOut && !Outdated(s.link, generation) && pipe == Some(generation) && s.link.requiresAuth
      then [Sent(generation, Auth(s.link.runs[generation].token))] else []
    case _ => []
  }

  // ---------------------------------------------------------------------------------------
  // Parts of a step
  // ---------------------------------------------------------------------------------------

  lemma EmitHeard(log: seq<Effect>, e: Effect)
    ensures HeardIn(log + [e]) == HeardIn(log) + if Heard(e) then [e] else []
  {
    assert (log + [e])[..|log|] == log;
  }

  lemma CloseHeard(s: State, code: nat, generation: nat)
    ensures HeardIn(HandleClose(s, code, generation).log)
         == HeardIn(s.log) + if code == 4001 && generation == s.link.generation then [Notified(s.registry.handlers)] else []
  {
    hide RejectAllPending, Lose, ScheduleReconnect;
    EmitHeard(s.log, Notified(s.registry.handlers));
  }

  lemma SendHeard(s: State, io: Carrier, frame: Frame, generation: nat)
    ensures HeardIn(SendOrClose(s, io, frame, generation).log)
         == HeardIn(s.log) + if s.link.pipe.Some? && io(|s.log|) && !frame.Subscribe? then [Sent(s.link.pipe.value, frame)] else []
  {
    hide HandleClose;
    if s.link.pipe.Some? {
      EmitHeard(s.log, Sent(s.link.pipe.value, frame));
      EmitHeard(s.log, Closed(s.link.pipe.value));
      CloseHeard(Emit(s, Closed(s.link.pipe.value)), 1006, generation);
    }
  }

  lemma {:induction false} SendEachHeard(s: State, io: Carrier, subs: seq<Sub>)
    ensures HeardIn(SendEach(s, io, subs).log) == HeardIn(s.log)
  {
    hide SendOrClose;
    if subs != [] {
      var init, last := subs[..|subs| - 1], subs[|subs| - 1];
      SendEachHeard(s, io, init);
      SendHeard(SendEach(s, io, init), io, Subscribe(last.id, last.path, last.args), s.link.generation);
    }
  }

  lemma DropHeard(s: State, id: string)
    ensures HeardIn(DropSubscription(s, id).log) == HeardIn(s.log) + if id in s.registry.errorHandlers then [Failed(id)] else []
  {
    hide DropFrom;
    EmitHeard(s.log, Failed(id));
  }

  lemma {:induction false} FoundIsOnly(subs: seq<Sub>, sub: Sub)
    requires DistinctIds(subs) && sub in subs
    ensures Find(subs, sub.id) == Some(sub)
  {
    if subs[0] != sub {
      MemberHasId(subs[1..], sub);
      FoundIsOnly(subs[1..], sub);
    }
  }

  lemma RetriesUsed(r: Registry, id: string)
    requires DistinctIds(r.subs)
    ensures OutOfRetries(r, id)
       <==> Find(r.subs, id).None? || Find(r.subs, id).value.retryableErrors + 1 > MAX_RETRYABLE_SUBSCRIPTION_ERRORS
  {
    var found := Find(r.subs, id);
    forall sub | sub in r.subs && sub.id == id
      ensures found == Some(sub)
    {
      FoundIsOnly(r.subs, sub);
    }
  }

  lemma RetryHeard(s: State, io: Carrier, id: string, retryable: bool)
    requires DistinctIds(s.registry.subs)
    ensures HeardIn(RetryOrDrop(s, io, id, retryable).log)
         == HeardIn(s.log) + if id in s.registry.errorHandlers && (retryable ==> OutOfRetries(s.registry, id)) then [Failed(id)] else []
  {
    RetriesUsed(s.registry, id);
    hide SendOrClose, DropSubscription, OutOfRetries, DistinctIds, Find, Put;
    DropHeard(s, id);
    var found := Find(s.registry.subs, id);
    if retryable && found.Some? {
      var sub := found.value.(retryableErrors := found.value.retryableErrors + 1);
      var counted := s.(registry := s.registry.(subs := Put(s.registry.subs, sub)));
      DropHeard(counted, id);
      SendHeard(counted, io, Subscribe(id, sub.path, sub.args), s.link.generation);
    }
  }

  lemma MessageHeard(s: State, io: Carrier, pipe: nat, msg: ServerMessage)
    requires DistinctIds(s.registry.subs) && Happens(s, Deliver(pipe, msg))
    ensures HeardIn(Next(s, io, Deliver(pipe, msg)).log) == HeardIn(s.log) + Hears(s, io, Deliver(pipe, msg))
  {
    hide SendEach, RetryOrDrop, Find, Put, RejectActions, Settle;
    var ready := s.(link := s.link.(reconnectAttempt := 0));
    match msg
    case Authenticated => SendEachHeard(ready.(link := ClearAckTimer(ready.link.(authenticated := true))), io, s.registry.subs);
    case Invalidate(id) => EmitHeard(s.log, Notified({id}));
    case SubscriptionError(subject, retryable) =>
      if subject.Some? {
        RetryHeard(ready, io, subject.value, retryable);
      }
    case Subscribed(_) =>
    case Result(_, _) =>
    case CallError(_, _) =>
  }

  lemma ReadyHeard(s: State, io: Carrier, generation: nat, ok: bool)
    requires Happens(s, ReadySettles(generation, ok))
    ensures HeardIn(AfterReady(s, io, generation, ok).log) == HeardIn(s.log) + Hears(s, io, ReadySettles(generation, ok))
  {
    hide HandleClose, SendOrClose, SendEach;
    CloseHeard(s, 1006, generation);
    EmitHeard(s.log, Closed(generation));
    if ok && !Outdated(s.link, generation) {
      var up := s.(link := s.link.(connected := true, authenticated := !s.link.requiresAuth));
      SendHeard(up, io, Auth(s.link.runs[generation].token), generation);
      SendEachHeard(up, io, up.registry.subs);
    }
  }

  lemma TimeoutHeard(s: State, generation: nat)
    ensures HeardIn(FailAuthAck(s, generation).log) == HeardIn(s.log)
  {
    hide HandleClose;
    if s.link.pipe.Some? {
      EmitHeard(s.log, Closed(s.link.pipe.value));
      CloseHeard(Emit(s, Closed(s.link.pipe.value)).(link := DetachPipe(s.link).(pipe := None)), 4002, generation);
    }
  }

  lemma LinkHeard(s: State, io: Carrier, e: Event)
    requires Happens(s, e) && (e.CloseEvent? || e.SendRejected? || e.AckTimeout? || e.PipeSettles? || e.Disconnect?)
    ensures HeardIn(Next(s, io, e).log) == HeardIn(s.log) + Hears(s, io, e)
  {
    hide HandleClose, RejectAllPending, FailAuthAck;
    match e
    case CloseEvent(pipe, code) => CloseHeard(s, code, pipe);
    case SendRejected(pipe) => EmitHeard(s.log, Closed(pipe)); CloseHeard(Emit(s, Closed(pipe)), 1006, pipe);
    case AckTimeout(generation) => TimeoutHeard(s.(link := TimerGone(s.link, generation)), generation);
    case PipeSettles(generation, ok) => EmitHeard(s.log, Closed(generation)); EmitHeard(s.log, Opened(generation));
    case Disconnect =>
      if s.link.pipe.Some? {
        EmitHeard(s.log, Closed(s.link.pipe.value));
      }
  }

  lemma CallHeard(s: State, io: Carrier, e: Event)
    requires Happens(s, e) && (e.AddSub? || e.RemoveSub? || e.Request?)
    ensures HeardIn(Next(s, io, e).log) == HeardIn(s.log) + Hears(s, io, e)
  {
    hide SendOrClose, Put, DropFrom, Settle;
    match e
    case AddSub(id, path, args, hasOnError) =>
      var r := s.registry;
      SendHeard(s.(registry := Registry(r.handlers + {id}, if hasOnError then r.errorHandlers + {id} else r.errorHandlers - {id},
                                        Put(r.subs, Sub(id, path, args, 0)))),
                io, Subscribe(id, path, args), s.link.generation);
    case RemoveSub(id) => SendHeard(s.(registry := DropFrom(s.registry, id)), io, Unsubscribe(id), s.link.generation);
    case Request(kind, path, args) =>
      if CanInvoke(s.link) {
        EmitHeard(s.log, Sent(s.link.pipe.value, Frame.Invoke(kind, s.calls.callSeq + 1, path, args)));
      }
  }

  /**
   * Every event lets exactly this be heard: an invalidated id that has a handler, that id alone; every
   * handler after the credential of the held pipe is refused; a failed subscription its own error handler;
   * and the one frame a call, an unsubscription or an authentication is for.
   */
  lemma StepHeard(s: State, io: Carrier, e: Event)
    requires Inv(s) && Happens(s, e)
    ensures HeardIn(Next(s, io, e).log) == HeardIn(s.log) + Hears(s, io, e)
  {
    assert DistinctIds(s.registry.subs);
    hide Inv;
    match e
    case Deliver(pipe, msg) => MessageHeard(s, io, pipe, msg);
    case ReadySettles(generation, ok) => ReadyHeard(s, io, generation, ok);
    case AddSub(_, _, _, _) => CallHeard(s, io, e);
    case RemoveSub(_) => CallHeard(s, io, e);
    case Request(_, _, _) => CallHeard(s, io, e);
    case CloseEvent(_, _) => LinkHeard(s, io, e);
    case SendRejected(_) => LinkHeard(s, io, e);
    case AckTimeout(_) => LinkHeard(s, io, e);
    case PipeSettles(_, _) => LinkHeard(s, io, e);
    case Disconnect => LinkHeard(s, io, e);
    case Connect =>
    case ReconnectFires =>
    case TokenSettles(_, _) =>
  }

  // ---------------------------------------------------------------------------------------
  // Runs
  // ---------------------------------------------------------------------------------------

  ghost function AllHeard(s: State, io: Carrier, events: seq<Event>): seq<Effect>
    requires Runs(s, io, events)
    decreases |events|
  {
    if events == [] then [] else Hears(s, io, events[0]) + AllHeard(Next(s, io, events[0]), io, events[1..])
  }

  lemma {:induction false} RunHeard(s: State, io: Carrier, events: seq<Event>)
    requires Inv(s) && Runs(s, io, events)
    ensures HeardIn(Take(s, io, events).log) == HeardIn(s.log) + AllHeard(s, io, events)
    decreases |events|
  {
    hide Inv, Happens, Next, Hears;
    if events != [] {
      StepKeepsInv(s, io, events[0]);
      StepHeard(s, io, events[0]);
      RunHeard(Next(s, io, events[0]), io, events[1..]);
    }
  }

  /** In every run what is heard is what its events let be heard, in their order: no notice is lost, doubled or made up. */
  lemma HeardIsWhatHappened(requiresAuth: bool, io: Carrier, events: seq<Event>)
    requires Runs(Created(requiresAuth), io, events)
    ensures HeardIn(Take(Created(requiresAuth), io, events).log) == AllHeard(Created(requiresAuth), io, events)
  {
    hide Inv;
    CreatedIsInv(requiresAuth);
    RunHeard(Created(requiresAuth), io, events);
  }

  /** The k-th event asked for call `id`. */
  ghost predicate AsksFor(s: State, io: Carrier, events: seq<Event>, k: nat, kind: CallType, id: nat)
    requires Runs(s, io, events)
  {
    && k < |events| && events[k].Request? && events[k].kind == kind
    && CanInvoke(ClientOutcomes.Before(s, io, events, k).link) && ClientOutcomes.Before(s, io, events, k).calls.callSeq + 1 == id
  }

  /** The k-th event delivered the token of attempt `generation`. */
  ghost predicate GivesToken(s: State, io: Carrier, events: seq<Event>, k: nat, generation: nat, token: Option<string>)
    requires Runs(s, io, events)
  {
    k < |events| && events[k] == TokenSettles(generation, Some(token))
  }

  ghost predicate Holds(l: Link, generation: nat, token: Option<string>) {
    generation in l.runs && !l.runs[generation].AwaitToken? && l.runs[generation].token == token
  }

  lemma {:induction false} LaterAsks(s: State, io: Carrier, events: seq<Event>, k: nat, kind: CallType, id: nat)
    requires Runs(s, io, events) && events != [] && AsksFor(Next(s, io, events[0]), io, events[1..], k, kind, id)
    ensures AsksFor(s, io, events, k + 1, kind, id)
  {
    hide Happens, Next;
  }

  ghost predicate SameKinds(before: Calls, after: Calls) {
    after.callSeq == before.callSeq && forall id :: id in after.pending ==> id in before.pending && after.pending[id] == before.pending[id]
  }

  lemma LossKeepsKinds(s: State, next: State)
    requires ClientOutcomes.KeptOrLost(s, next)
    ensures SameKinds(s.calls, next.calls)
  {}

  lemma StepKeepsKinds(s: State, io: Carrier, e: Event)
    requires Inv(s) && Happens(s, e) && !(e.Request? && CanInvoke(s.link))
    ensures SameKinds(s.calls, Next(s, io, e).calls)
  {
    hide Inv, HandleClose, SendOrClose, SendEach, AfterReady, RetryOrDrop, ClientOutcomes.KeptOrLost;
    match e
    case Deliver(pipe, msg) =>
      if !msg.Result? && !msg.CallError? {
        hide HandleMessage, Happens;
        ClientOutcomes.MessageTells(s, io, pipe, msg);
        LossKeepsKinds(s, Next(s, io, e));
      }
    case ReadySettles(generation, ok) => ClientOutcomes.ReadyStepTells(s, io, generation, ok); LossKeepsKinds(s, Next(s, io, e));
    case AddSub(_, _, _, _) => ClientOutcomes.CallTells(s, io, e); LossKeepsKinds(s, Next(s, io, e));
    case RemoveSub(_) => ClientOutcomes.CallTells(s, io, e); LossKeepsKinds(s, Next(s, io, e));
    case Disconnect =>
    case Request(_, _, _) =>
    case _ =>
      ClientOutcomes.LinkTells(s, io, e);
      if ClientOutcomes.KeptOrLost(s, Next(s, io, e)) {
        LossKeepsKinds(s, Next(s, io, e));
      }
  }

  lemma AskedKind(s: State, io: Carrier, e: Event, id: nat)
    requires Inv(s) && Happens(s, e) && id in Next(s, io, e).calls.pending
    ensures id in s.calls.pending || (e.Request? && CanInvoke(s.link) && id == s.calls.callSeq + 1)
    ensures id <= s.calls.callSeq ==> id in s.calls.pending && Next(s, io, e).calls.pending[id] == s.calls.pending[id]
    ensures id > s.calls.callSeq ==> e.Request? && Next(s, io, e).calls.pending[id] == e.kind
    ensures s.calls.callSeq <= Next(s, io, e).calls.callSeq
  {
    ClientOutcomes.PendingFacts(s);
    hide Inv;
    if !(e.Request? && CanInvoke(s.link)) {
      StepKeepsKinds(s, io, e);
      hide Next, Happens;
    }
  }

  lemma SeqGrows(s: State, io: Carrier, e: Event)
    requires Inv(s) && Happens(s, e)
    ensures s.calls.callSeq <= Next(s, io, e).calls.callSeq
  {
    hide Inv;
    if !(e.Request? && CanInvoke(s.link)) {
      StepKeepsKinds(s, io, e);
      hide Next, Happens;
    }
  }

  lemma {:induction false} KindStays(s: State, io: Carrier, events: seq<Event>, id: nat)
    requires Inv(s) && Runs(s, io, events) && id <= s.calls.callSeq && id in Take(s, io, events).calls.pending
    ensures id in s.calls.pending && Take(s, io, events).calls.pending[id] == s.calls.pending[id]
    decreases |events|
  {
    hide Inv, Happens, Next;
    if events != [] {
      StepKeepsInv(s, io, events[0]);
      SeqGrows(s, io, events[0]);
      KindStays(Next(s, io, events[0]), io, events[1..], id);
      AskedKind(s, io, events[0], id);
    }
  }

  /** From here on: a call that gets asked for keeps its kind while it is pending. */
  lemma {:induction false} KindFromHere(s: State, io: Carrier, events: seq<Event>, id: nat) returns (k: nat)
    requires Inv(s) && Runs(s, io, events) && id in Take(s, io, events).calls.pending && id > s.calls.callSeq
    ensures AsksFor(s, io, events, k, Take(s, io, events).calls.pending[id], id)
    decreases |events|
  {
    ClientOutcomes.PendingFacts(s);
    hide Inv, Happens, Next;
    StepKeepsInv(s, io, events[0]);
    var next := Next(s, io, events[0]);
    if id <= next.calls.callSeq {
      k := 0;
      KindStays(next, io, events[1..], id);
      AskedKind(s, io, events[0], id);
    } else {
      k := KindFromHere(next, io, events[1..], id);
      LaterAsks(s, io, events, k, Take(s, io, events).calls.pending[id], id);
      k := k + 1;
    }
  }

  lemma OthersKeepRuns(s: State, io: Carrier, e: Event)
    requires Happens(s, e)
    requires e.Deliver? || e.CloseEvent? || e.SendRejected? || e.AckTimeout? || e.AddSub? || e.RemoveSub? || e.Request? || e.Disconnect?
    ensures Next(s, io, e).link.runs == s.link.runs
  {
    hide HandleClose, HandleMessage, FailAuthAck, DoSubscribe, DoUnsubscribe, DoInvoke, RejectAllPending;
    match e
    case Deliver(_, msg) => ClientReconnect.MessageKeepsAtIt(s, io, msg);
    case CloseEvent(pipe, code) => ClientReconnect.CloseKeepsAtIt(s, code, pipe);
    case SendRejected(pipe) => ClientReconnect.CloseKeepsAtIt(Emit(s, Closed(pipe)), 1006, pipe);
    case AckTimeout(g) => ClientReconnect.TimeoutKeepsAtIt(s.(link := TimerGone(s.link, g)), g);
    case Disconnect =>
    case _ => ClientReconnect.CallKeepsAtIt(s, io, e);
  }

  lemma ReadyKeepsTokens(s: State, io: Carrier, generation: nat, ok: bool)
    requires Happens(s, ReadySettles(generation, ok))
    ensures Next(s, io, ReadySettles(generation, ok)).link.runs == s.link.runs - {generation}
  {
    hide AfterReady;
    var before := ClientReconnect.ReadyKeepsAtIt(s, io, generation, ok);
  }

  lemma ErrorFinishes(l: Link, generation: nat)
    ensures FinishWithError(l, generation).runs == l.runs - {generation}
  {}

  lemma NextIsAttempt(s: State, io: Carrier, e: Event)
    requires Happens(s, e)
    ensures match e
            case TokenSettles(g, token) => Next(s, io, e) == AfterToken(s, g, token)
            case PipeSettles(g, ok) => Next(s, io, e) == AfterPipe(s, g, ok)
            case Connect => Next(s, io, e) == DoConnect(s)
            case ReconnectFires => Next(s, io, e) == DoConnect(s.(link := s.link.(reconnectTimer := false)))
            case _ => true
  {
    hide AfterReady, AfterToken, AfterPipe, DoConnect, HandleMessage, HandleClose, DoSubscribe, DoUnsubscribe, DoInvoke, DoDisconnect, FailAuthAck;
  }

  lemma TokenKeepsTokens(s: State, g: nat, given: Option<Option<string>>, generation: nat, token: Option<string>)
    requires g in s.link.runs && s.link.runs[g].AwaitToken? && Holds(AfterToken(s, g, given).link, generation, token)
    ensures Holds(s.link, generation, token) || (g == generation && given == Some(token))
  {
    hide FinishWithError;
    ErrorFinishes(s.link, g);
  }

  lemma PipeKeepsTokens(s: State, g: nat, ok: bool, generation: nat, token: Option<string>)
    requires g in s.link.runs && s.link.runs[g].AwaitPipe? && Holds(AfterPipe(s, g, ok).link, generation, token)
    ensures Holds(s.link, generation, token)
  {
    hide FinishWithError;
    ErrorFinishes(s.link, g);
  }

  lemma ConnectKeepsTokens(s: State, generation: nat, token: Option<string>)
    requires Holds(DoConnect(s).link, generation, token)
    ensures Holds(s.link, generation, token)
  {}

  lemma StepKeepsTokens(s: State, io: Carrier, e: Event, generation: nat, token: Option<string>)
    requires Happens(s, e) && Holds(Next(s, io, e).link, generation, token)
    ensures Holds(s.link, generation, token) || e == TokenSettles(generation, Some(token))
  {
    hide AfterToken, AfterPipe, DoConnect, Next;
    match e
    case ReadySettles(g, ok) => ReadyKeepsTokens(s, io, g, ok);
    case TokenSettles(g, given) => NextIsAttempt(s, io, e); TokenKeepsTokens(s, g, given, generation, token);
    case PipeSettles(g, ok) => NextIsAttempt(s, io, e); PipeKeepsTokens(s, g, ok, generation, token);
    case Connect => NextIsAttempt(s, io, e); ConnectKeepsTokens(s, generation, token);
    case ReconnectFires => NextIsAttempt(s, io, e); ConnectKeepsTokens(s.(link := s.link.(reconnectTimer := false)), generation, token);
    case _ => OthersKeepRuns(s, io, e);
  }

  lemma {:induction false} TokenFromHere(s: State, io: Carrier, events: seq<Event>, generation: nat, token: Option<string>) returns (k: nat)
    requires Runs(s, io, events) && Holds(Take(s, io, events).link, generation, token) && !Holds(s.link, generation, token)
    ensures GivesToken(s, io, events, k, generation, token)
    decreases |events|
  {
    hide Happens, Next, Holds;
    var next := Next(s, io, events[0]);
    if Holds(next.link, generation, token) {
      StepKeepsTokens(s, io, events[0], generation, token);
      k := 0;
    } else {
      k := TokenFromHere(next, io, events[1..], generation, token);
      k := k + 1;
    }
  }

  /**
   * In every run a pending call is of the kind it was asked for as, and the token an attempt will
   * authenticate with is one its own `getToken` gave.
   */
  lemma KindsAndTokensAreAsGiven(requiresAuth: bool, io: Carrier, events: seq<Event>)
    requires Runs(Created(requiresAuth), io, events)
    ensures var start, s := Created(requiresAuth), Take(Created(requiresAuth), io, events);
            && (forall id: nat :: id in s.calls.pending ==> exists k: nat :: AsksFor(start, io, events, k, s.calls.pending[id], id))
            && forall g: nat, token :: Holds(s.link, g, token) ==> exists k: nat :: GivesToken(start, io, events, k, g, token)
  {
    hide Inv, Happens, Next, AsksFor, GivesToken;
    CreatedIsInv(requiresAuth);
    var start, s := Created(requiresAuth), Take(Created(requiresAuth), io, events);
    RunKeepsInv(start, io, events);
    ClientOutcomes.PendingFacts(s);
    forall id: nat | id in s.calls.pending
      ensures exists k: nat :: AsksFor(start, io, events, k, s.calls.pending[id], id)
    {
      var k := KindFromHere(start, io, events, id);
    }
    forall g: nat, token | Holds(s.link, g, token)
      ensures exists k: nat :: GivesToken(start, io, events, k, g, token)
    {
      var k := TokenFromHere(start, io, events, g, token);
    }
  }
}
