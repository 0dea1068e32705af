/**
 * When the client engine keeps trying to reach its server (packages/client/src/engine.ts): what is
 * retried, what is counted, and the one interleaving in which an engine that nobody stopped gives up.
 */
module ClientReconnect {
  import opened Common
  import opened ClientProtocol
  import opened ClientSafety

  /** A pipe is held, an attempt is in flight, a retry is scheduled, or the credential was refused. */
  predicate Trying(l: Link) {
    l.pipe.Some? || l.connecting || l.reconnectTimer || l.authFailed
  }

  /** The attempt has lost its pipe before the carrier was ready, and its retry has fired already. */
  predicate RetryIsSpent(l: Link) {
    l.pipe.None? && !l.reconnectTimer && !l.authFailed
  }

  /** No closer to giving up, and one attempt counted for each retry newly scheduled. */
  ghost predicate KeepsAtIt(l: Link, next: Link) {
    && next.generation == l.generation && next.connecting == l.connecting && next.runs == l.runs
    && (l.authFailed ==> next.authFailed) && (l.reconnectTimer ==> next.reconnectTimer)
    && (l.pipe.Some? ==> next.pipe.Some? || next.reconnectTimer || next.authFailed)
    && next.reconnectAttempt == l.reconnectAttempt + if next.reconnectTimer && !l.reconnectTimer then 1 else 0
  }

  lemma KeepsAtItThen(a: Link, b: Link, c: Link)
    requires KeepsAtIt(a, b) && KeepsAtIt(b, c)
    ensures KeepsAtIt(a, c)
  {}

  lemma CloseKeepsAtIt(s: State, code: nat, generation: nat)
    ensures KeepsAtIt(s.link, HandleClose(s, code, generation).link)
  {
    hide RejectAllPending, Lose;
    Lost(s.link);
    LostLeaves(s.link);
  }

  lemma LostLeaves(l: Link)
    ensures var lost := Lose(l);
            && lost.connecting == l.connecting && lost.reconnectTimer == l.reconnectTimer
            && lost.authFailed == l.authFailed && lost.reconnectAttempt == l.reconnectAttempt
  {}

  lemma SendKeepsAtIt(s: State, io: Carrier, frame: Frame, generation: nat)
    ensures KeepsAtIt(s.link, SendOrClose(s, io, frame, generation).link)
  {
    hide HandleClose;
    if s.link.pipe.Some? {
      CloseKeepsAtIt(Emit(s, Closed(s.link.pipe.value)), 1006, generation);
    }
  }

  lemma {:induction false} SendEachKeepsAtIt(s: State, io: Carrier, subs: seq<Sub>)
    ensures KeepsAtIt(s.link, SendEach(s, io, subs).link)
  {
    hide SendOrClose;
    if subs != [] {
      hide KeepsAtIt;
      var init, last := subs[..|subs| - 1], subs[|subs| - 1];
      var before := SendEach(s, io, init);
      SendEachKeepsAtIt(s, io, init);
      SendKeepsAtIt(before, io, Subscribe(last.id, last.path, last.args), s.link.generation);
      KeepsAtItThen(s.link, before.link, SendEach(s, io, subs).link);
    }
  }

  lemma MessageKeepsAtIt(s: State, io: Carrier, msg: ServerMessage)
    ensures KeepsAtIt(s.link.(reconnectAttempt := 0), HandleMessage(s, io, msg).link)
  {
    hide SendEach, SendOrClose, Find, Put, Settle, RejectActions, DropFrom;
    var ready := s.(link := s.link.(reconnectAttempt := 0));
    match msg
    case Authenticated =>
      var up := ready.(link := ClearAckTimer(ready.link.(authenticated := true)));
      SendEachKeepsAtIt(up, io, s.registry.subs);
      KeepsAtItThen(ready.link, up.link, SendEach(up, io, s.registry.subs).link);
    case SubscriptionError(subject, retryable) =>
      if subject.Some? && Find(s.registry.subs, subject.value).Some? {
        var found := Find(s.registry.subs, subject.value).value;
        var sub := found.(retryableErrors := found.retryableErrors + 1);
        SendKeepsAtIt(ready.(registry := s.registry.(subs := Put(s.registry.subs, sub))), io,
                      Subscribe(subject.value, sub.path, sub.args), s.link.generation);
      }
    case _ =>
  }

  lemma TimeoutKeepsAtIt(s: State, generation: nat)
    ensures KeepsAtIt(s.link, FailAuthAck(s, generation).link)
  {
    hide HandleClose;
    if s.link.pipe.Some? && generation == s.link.generation {
      var emitted := Emit(s, Closed(s.link.pipe.value));
      PipeIsForgotten(emitted, 4002, generation);
      CloseKeepsAtIt(emitted, 4002, generation);
    }
  }

  lemma CallKeepsAtIt(s: State, io: Carrier, e: Event)
    requires Happens(s, e) && (e.AddSub? || e.RemoveSub? || e.Request?)
    ensures KeepsAtIt(s.link, Next(s, io, e).link)
  {
    hide SendOrClose, Put, DropFrom, Settle;
    match e
    case AddSub(id, path, args, hasOnError) =>
      var r := s.registry;
      SendKeepsAtIt(s.(registry := Registry(r.handlers + {id}, if hasOnError then r.errorHandlers + {id} else r.errorHandlers - {id},
                                            Put(r.subs, Sub(id, path, args, 0)))),
                    io, Subscribe(id, path, args), s.link.generation);
    case RemoveSub(id) => SendKeepsAtIt(s.(registry := DropFrom(s.registry, id)), io, Unsubscribe(id), s.link.generation);
    case Request(_, _, _) =>
  }

  /** The end of an attempt: `KeepsAtIt`, then `connecting` is cleared if it is the current one. */
  lemma ReadyKeepsAtIt(s: State, io: Carrier, generation: nat, ok: bool) returns (before: Link)
    requires Happens(s, ReadySettles(generation, ok))
    ensures KeepsAtIt(s.link, before) && AfterReady(s, io, generation, ok).link == Finish(before, generation)
    ensures s.link.pipe.None? ==> before == s.link
  {
    hide SendEach, SendOrClose, HandleClose;
    if !ok {
      CloseKeepsAtIt(s, 1006, generation);
      return if s.link.pipe == Some(generation) then HandleClose(s, 1006, generation).link else s.link;
    }
    if Outdated(s.link, generation) || s.link.pipe != Some(generation) {
      return s.link;
    }
    var up := s.(link := s.link.(connected := true, authenticated := !s.link.requiresAuth));
    SendKeepsAtIt(up, io, Auth(s.link.runs[generation].token), generation);
    SendEachKeepsAtIt(up, io, up.registry.subs);
    before := (if s.link.requiresAuth then StartAuth(up, io, s.link.runs[generation].token, generation) else SendSubscriptions(up, io)).link;
  }

  /** Whether the event ends the attempt of the current generation after its pipe was lost and its retry spent. */
  predicate GivesUp(l: Link, e: Event) {
    e.ReadySettles? && e.generation == l.generation && RetryIsSpent(l)
  }

  /**
   * A step stops an engine from trying exactly if it is a disconnect, or the current attempt's carrier
   * settles after its pipe was lost and the retry has fired and found the attempt still in flight.
   */
  lemma StopsIffGivesUp(s: State, io: Carrier, e: Event)
    requires Inv(s) && Happens(s, e) && Trying(s.link)
    ensures !Trying(Next(s, io, e).link) <==> e.Disconnect? || GivesUp(s.link, e)
  {
    LinkFacts(s);
    hide Inv, HandleClose, HandleMessage, AfterReady, FailAuthAck, DoSubscribe, DoUnsubscribe, DoInvoke, RejectAllPending;
    match e
    case Deliver(_, msg) => MessageKeepsAtIt(s, io, msg);
    case CloseEvent(pipe, code) => CloseKeepsAtIt(s, code, pipe);
    case SendRejected(pipe) => CloseKeepsAtIt(Emit(s, Closed(pipe)), 1006, pipe);
    case AckTimeout(g) => TimeoutKeepsAtIt(s.(link := TimerGone(s.link, g)), g);
    case ReadySettles(g, ok) => ReadyStopsIff(s, io, g, ok);
    case AddSub(_, _, _, _) => CallKeepsAtIt(s, io, e);
    case RemoveSub(_) => CallKeepsAtIt(s, io, e);
    case Request(_, _, _) => CallKeepsAtIt(s, io, e);
    case Disconnect =>
    case Connect =>
    case ReconnectFires =>
    case TokenSettles(_, _) =>
    case PipeSettles(_, _) =>
  }

  lemma LinkFacts(s: State)
    requires Inv(s)
    ensures s.link.pipe.Some? ==> s.link.pipe.value == s.link.generation
    ensures s.link.authFailed ==> s.link.pipe.None?
  {}

  lemma ReadyStopsIff(s: State, io: Carrier, generation: nat, ok: bool)
    requires Inv(s) && Happens(s, ReadySettles(generation, ok)) && Trying(s.link)
    ensures !Trying(AfterReady(s, io, generation, ok).link) <==> GivesUp(s.link, ReadySettles(generation, ok))
  {
    LinkFacts(s);
    var before := ReadyKeepsAtIt(s, io, generation, ok);
    hide Inv, SendEach, SendOrClose, HandleClose, AfterReady;
  }

  /** Attempts are counted from the last message on: one for every retry that gets scheduled. */
  lemma AttemptsAreCounted(s: State, io: Carrier, e: Event)
    requires Happens(s, e)
    ensures var l, next := s.link, Next(s, io, e).link;
            next.reconnectAttempt == (if e.Deliver? then 0 else l.reconnectAttempt) + if next.reconnectTimer && !l.reconnectTimer then 1 else 0
  {
    hide HandleClose, HandleMessage, AfterReady, FailAuthAck, DoSubscribe, DoUnsubscribe, DoInvoke, RejectAllPending;
    match e
    case Deliver(_, msg) => MessageKeepsAtIt(s, io, msg);
    case CloseEvent(pipe, code) => CloseKeepsAtIt(s, code, pipe);
    case SendRejected(pipe) => CloseKeepsAtIt(Emit(s, Closed(pipe)), 1006, pipe);
    case AckTimeout(g) => TimeoutKeepsAtIt(s.(link := TimerGone(s.link, g)), g);
    case ReadySettles(g, ok) =>
      var before := ReadyKeepsAtIt(s, io, g, ok);
    case AddSub(_, _, _, _) => CallKeepsAtIt(s, io, e);
    case RemoveSub(_) => CallKeepsAtIt(s, io, e);
    case Request(_, _, _) => CallKeepsAtIt(s, io, e);
    case Disconnect =>
    case Connect =>
    case ReconnectFires =>
    case TokenSettles(_, _) =>
    case PipeSettles(_, _) =>
  }

  // ---------------------------------------------------------------------------------------
  // Losing the pipe
  // ---------------------------------------------------------------------------------------

  /** The held pipe closes, rejects a send, misses its acknowledgement or never gets ready. */
  predicate Breaks(l: Link, e: Event) {
    match e
    case CloseEvent(pipe, _) => l.pipe == Some(pipe)
    case SendRejected(pipe) => l.pipe == Some(pipe)
    case AckTimeout(generation) => l.pipe == Some(generation)
    case ReadySettles(generation, ok) => !ok && l.pipe == Some(generation)
    case _ => false
  }

  /** From here on the carrier takes every frame. */
  ghost predicate AllGoOut(s: State, io: Carrier) {
    forall n: nat :: |s.log| <= n ==> io(n)
  }

  lemma CloseBreaks(s: State, code: nat)
    ensures var next := HandleClose(s, code, s.link.generation);
            && next.link.pipe.None? && next.calls.pending == map[] && (next.link.authFailed <==> code == 4001 || s.link.authFailed)
            && (code != 4001 ==> next.link.reconnectTimer || s.link.authFailed)
    ensures forall g: nat :: g != s.link.generation ==> HandleClose(s, code, g) == s
  {
    hide Lose;
    Lost(s.link);
    LostLeaves(s.link);
  }

  /** A pipe that breaks is dropped with every pending call, for good after a refused credential and otherwise to be tried again. */
  lemma BrokenPipeIsRetried(s: State, io: Carrier, e: Event)
    requires Inv(s) && Happens(s, e) && Breaks(s.link, e)
    ensures var next := Next(s, io, e);
            && next.link.pipe.None? && next.calls.pending == map[]
            && (if e.CloseEvent? && e.code == 4001 then next.link.authFailed else next.link.reconnectTimer && !next.link.authFailed)
  {
    LinkFacts(s);
    hide Inv, HandleClose;
    var pipe := s.link.generation;
    match e
    case CloseEvent(_, code) => CloseBreaks(s, code);
    case SendRejected(_) => CloseBreaks(Emit(s, Closed(pipe)), 1006);
    case AckTimeout(_) => CloseBreaks(Emit(s, Closed(pipe)).(link := DetachPipe(TimerGone(s.link, pipe)).(pipe := None)), 4002);
    case ReadySettles(_, _) => CloseBreaks(s, 1006);
  }

  lemma SendStays(s: State, io: Carrier, frame: Frame, generation: nat)
    requires AllGoOut(s, io)
    ensures SendOrClose(s, io, frame, generation).link == s.link && AllGoOut(SendOrClose(s, io, frame, generation), io)
  {}

  lemma {:induction false} SendEachStays(s: State, io: Carrier, subs: seq<Sub>)
    requires AllGoOut(s, io)
    ensures SendEach(s, io, subs).link == s.link && AllGoOut(SendEach(s, io, subs), io)
  {
    hide SendOrClose, AllGoOut;
    if subs != [] {
      var init, last := subs[..|subs| - 1], subs[|subs| - 1];
      SendEachStays(s, io, init);
      SendStays(SendEach(s, io, init), io, Subscribe(last.id, last.path, last.args), s.link.generation);
    }
  }

  /** Nothing else takes the pipe, a send that throws aside. */
  lemma PipeIsLostIff(s: State, io: Carrier, e: Event)
    requires Inv(s) && Happens(s, e) && s.link.pipe.Some? && AllGoOut(s, io)
    ensures Next(s, io, e).link.pipe.None? <==> e.Disconnect? || Breaks(s.link, e)
    ensures Next(s, io, e).link.pipe.Some? ==> Next(s, io, e).link.pipe == s.link.pipe
  {
    LinkFacts(s);
    PipeIsOpen(s);
    if Breaks(s.link, e) {
      BrokenPipeIsRetried(s, io, e);
    } else {
      hide Inv, HandleClose, HandleMessage, AfterReady, SendOrClose, RejectAllPending;
      match e
      case Deliver(_, msg) => MessageStays(s, io, msg);
      case CloseEvent(pipe, code) => CloseBreaks(s, code);
      case SendRejected(pipe) => CloseBreaks(Emit(s, Closed(pipe)), 1006);
      case ReadySettles(g, ok) => ReadyStays(s, io, g, ok);
      case AddSub(_, _, _, _) => CallStays(s, io, e);
      case RemoveSub(_) => CallStays(s, io, e);
      case Request(_, _, _) => CallStays(s, io, e);
      case _ =>
    }
  }

  lemma PipeIsOpen(s: State)
    requires Inv(s) && s.link.pipe.Some?
    ensures s.link.generation in s.link.runs ==> s.link.runs[s.link.generation].AwaitReady?
  {}

  lemma MessageStays(s: State, io: Carrier, msg: ServerMessage)
    requires AllGoOut(s, io)
    ensures HandleMessage(s, io, msg).link.pipe == s.link.pipe
  {
    hide SendEach, SendOrClose, Find, Put, Settle, RejectActions, DropFrom;
    var ready := s.(link := s.link.(reconnectAttempt := 0));
    match msg
    case Authenticated => SendEachStays(ready.(link := ClearAckTimer(ready.link.(authenticated := true))), io, s.registry.subs);
    case SubscriptionError(subject, retryable) =>
      if subject.Some? && Find(s.registry.subs, subject.value).Some? {
        var found := Find(s.registry.subs, subject.value).value;
        var sub := found.(retryableErrors := found.retryableErrors + 1);
        SendStays(ready.(registry := s.registry.(subs := Put(s.registry.subs, sub))), io,
                      Subscribe(subject.value, sub.path, sub.args), s.link.generation);
      }
    case _ =>
  }

  lemma ReadyStays(s: State, io: Carrier, generation: nat, ok: bool)
    requires Happens(s, ReadySettles(generation, ok)) && AllGoOut(s, io) && !Breaks(s.link, ReadySettles(generation, ok))
    ensures AfterReady(s, io, generation, ok).link.pipe == s.link.pipe
  {
    hide SendEach, SendOrClose, HandleClose;
    var up := s.(link := s.link.(connected := true, authenticated := !s.link.requiresAuth));
    SendStays(up, io, Auth(s.link.runs[generation].token), generation);
    SendEachStays(up, io, up.registry.subs);
  }

  lemma CallStays(s: State, io: Carrier, e: Event)
    requires Happens(s, e) && AllGoOut(s, io) && (e.AddSub? || e.RemoveSub? || e.Request?)
    ensures Next(s, io, e).link == s.link
  {
    hide Put, DropFrom, Settle;
  }

  // ---------------------------------------------------------------------------------------
  // Runs
  // ---------------------------------------------------------------------------------------

  /** Nobody disconnects, and no carrier settles an attempt whose retry is spent. */
  ghost predicate NeverGivesUp(s: State, io: Carrier, events: seq<Event>)
    requires Runs(s, io, events)
    decreases |events|
  {
    events != [] ==> !events[0].Disconnect? && !GivesUp(s.link, events[0]) && NeverGivesUp(Next(s, io, events[0]), io, events[1..])
  }

  /** From a call of `connect` on, in every run, the engine keeps trying until one of the two happens. */
  lemma {:induction false} ConnectKeepsTrying(s: State, io: Carrier, events: seq<Event>)
    requires Inv(s) && Runs(s, io, [Connect] + events) && NeverGivesUp(s, io, [Connect] + events)
    ensures Trying(Take(s, io, [Connect] + events).link)
  {
    assert ([Connect] + events)[1..] == events;
    StepKeepsInv(s, io, Connect);
    KeepsTrying(Next(s, io, Connect), io, events);
  }

  lemma {:induction false} KeepsTrying(s: State, io: Carrier, events: seq<Event>)
    requires Inv(s) && Trying(s.link) && Runs(s, io, events) && NeverGivesUp(s, io, events)
    ensures Trying(Take(s, io, events).link)
    decreases |events|
  {
    hide Inv, Happens, Next, Trying, GivesUp;
    if events != [] {
      StepKeepsInv(s, io, events[0]);
      StopsIffGivesUp(s, io, events[0]);
      KeepsTrying(Next(s, io, events[0]), io, events[1..]);
    }
  }

  /**
   * It can happen: a pipe closes while its carrier is still getting ready, the retry fires into the
   * attempt in flight and is spent, and the carrier then settles, either way. Nobody disconnected,
   * no pipe is left, and nothing will try again.
   */
  lemma SlowCarrierStrandsEngine(io: Carrier, ok: bool)
    ensures var events := [Connect, TokenSettles(1, Some(None)), PipeSettles(1, true), CloseEvent(1, 1006), ReconnectFires, ReadySettles(1, ok)];
            && Runs(Created(false), io, events)
            && !Trying(Take(Created(false), io, events).link)
  {
    var s3 := HoldsFirstPipe(io);
    var s5 := SpendsRetry(s3, io);
    SpentRetry(s5, io, ok);
    hide Next, Happens, HandleClose, Runs, Take;
    NoStep(Next(s5, io, ReadySettles(1, ok)), io);
    OneStep(s5, io, ReadySettles(1, ok), []);
    OneStep(Next(s3, io, CloseEvent(1, 1006)), io, ReconnectFires, [ReadySettles(1, ok)]);
    OneStep(s3, io, CloseEvent(1, 1006), [ReconnectFires, ReadySettles(1, ok)]);
    var s1 := Next(Created(false), io, Connect);
    OneStep(Next(s1, io, TokenSettles(1, Some(None))), io, PipeSettles(1, true), [CloseEvent(1, 1006), ReconnectFires, ReadySettles(1, ok)]);
    OneStep(s1, io, TokenSettles(1, Some(None)), [PipeSettles(1, true), CloseEvent(1, 1006), ReconnectFires, ReadySettles(1, ok)]);
    OneStep(Created(false), io, Connect,
            [TokenSettles(1, Some(None)), PipeSettles(1, true), CloseEvent(1, 1006), ReconnectFires, ReadySettles(1, ok)]);
  }

  lemma HoldsFirstPipe(io: Carrier) returns (s: State)
    ensures Happens(Created(false), Connect)
    ensures var s1 := Next(Created(false), io, Connect);
            && Happens(s1, TokenSettles(1, Some(None)))
            && Happens(Next(s1, io, TokenSettles(1, Some(None))), PipeSettles(1, true))
            && s == Next(Next(s1, io, TokenSettles(1, Some(None))), io, PipeSettles(1, true))
    ensures s.link.pipe == Some(1) && s.link.generation == 1 && s.link.connecting && !s.link.authFailed
    ensures s.link.openedPipes == {1} && s.link.runs == map[1 := AwaitReady(None)]
  {
    s := Next(Next(Next(Created(false), io, Connect), io, TokenSettles(1, Some(None))), io, PipeSettles(1, true));
  }

  lemma SpendsRetry(s: State, io: Carrier) returns (after: State)
    requires s.link.pipe == Some(1) && s.link.generation == 1 && s.link.connecting && !s.link.authFailed
    requires s.link.openedPipes == {1} && s.link.runs == map[1 := AwaitReady(None)]
    ensures Happens(s, CloseEvent(1, 1006)) && Happens(Next(s, io, CloseEvent(1, 1006)), ReconnectFires)
    ensures after == Next(Next(s, io, CloseEvent(1, 1006)), io, ReconnectFires)
    ensures Happens(after, ReadySettles(1, true)) && Happens(after, ReadySettles(1, false))
    ensures after.link.generation == 1 && RetryIsSpent(after.link)
  {
    hide RejectAllPending;
    after := Next(Next(s, io, CloseEvent(1, 1006)), io, ReconnectFires);
  }

  lemma SpentRetry(s: State, io: Carrier, ok: bool)
    requires Happens(s, ReadySettles(1, ok)) && s.link.generation == 1 && RetryIsSpent(s.link)
    ensures !Trying(Next(s, io, ReadySettles(1, ok)).link)
  {
    hide HandleClose, SendOrClose, SendEach;
  }

  lemma NoStep(s: State, io: Carrier)
    ensures Runs(s, io, []) && Take(s, io, []) == s
  {}

  lemma OneStep(s: State, io: Carrier, e: Event, rest: seq<Event>)
    requires Happens(s, e) && Runs(Next(s, io, e), io, rest)
    ensures Runs(s, io, [e] + rest) && Take(s, io, [e] + rest) == Take(Next(s, io, e), io, rest)
  {
    hide Happens, Next;
    assert ([e] + rest)[1..] == rest;
  }
}
