/**
 * What callers and handlers of the client engine are told (packages/client/src/engine.ts): which
 * outcome a call gets and what gave it, and who is notified of what.
 */
module ClientOutcomes {
  import opened Common
  import opened ClientProtocol
  import opened ClientSafety

  // ---------------------------------------------------------------------------------------
  // Which events end a call, and how
  // ---------------------------------------------------------------------------------------

  /**
   * The event ends call `id`: its own result or error frame, an old server's complaint about an
   * action, a disconnect, its own send throwing, or the loss of the pipe.
   */
  ghost predicate Ends(s: State, io: Carrier, e: Event, id: nat)
    requires Happens(s, e)
  {
    match e
    case Deliver(_, Result(call, _)) => call == id && id in s.calls.pending
    case Deliver(_, CallError(Some(target), _)) => target == id && id in s.calls.pending
    case Deliver(_, CallError(None, error)) => error == "invalid message" && id in s.calls.pending && s.calls.pending[id] == Action
    case Disconnect => id in s.calls.pending
    case Request(_, _, _) => id == s.calls.callSeq + 1 && CanInvoke(s.link) && !io(|s.log|)
    case _ => id in s.calls.pending && Next(s, io, e).link.pipe.None?
  }

  /** What the caller gets: the data of a result, or the reason it failed. */
  ghost function Verdict(e: Event): Outcome {
    match e
    case Deliver(_, Result(_, data)) => Resolved(data)
    case Deliver(_, CallError(Some(_), error)) => Rejected(error)
    case Deliver(_, CallError(None, _)) => Rejected("Server does not support Action frames")
    case Disconnect => Rejected("disconnected")
    case Request(_, _, _) => Rejected("send failed")
    case _ => Rejected("pipe closed")
  }

  /** Exactly call by call: what `e` ends gets its verdict, and every other outcome stays as it was. */
  ghost predicate Told(s: State, io: Carrier, e: Event, next: State, id: nat)
    requires Happens(s, e)
  {
    if Ends(s, io, e, id) then id !in s.calls.outcomes && id in next.calls.outcomes && next.calls.outcomes[id] == Verdict(e)
    else (id in next.calls.outcomes <==> id in s.calls.outcomes) && (id in s.calls.outcomes ==> next.calls.outcomes[id] == s.calls.outcomes[id])
  }

  // ---------------------------------------------------------------------------------------
  // Sends and closes
  // ---------------------------------------------------------------------------------------

  /** Either nothing happens to the calls and the pipe, or the pipe is lost and takes every call with it. */
  ghost predicate KeptOrLost(s: State, next: State) {
    || (next.calls == s.calls && next.link.pipe == s.link.pipe)
    || (next.calls == RejectAllPending(s.calls, "pipe closed") && next.link.pipe.None?)
  }

  lemma CloseTells(s: State, code: nat, generation: nat)
    ensures KeptOrLost(s, HandleClose(s, code, generation))
  {
    hide RejectAllPending, Lose;
    Lost(s.link);
  }

  lemma SendTells(s: State, io: Carrier, frame: Frame, generation: nat)
    ensures KeptOrLost(s, SendOrClose(s, io, frame, generation))
  {
    hide RejectAllPending, HandleClose;
    if s.link.pipe.Some? {
      CloseTells(Emit(s, Closed(s.link.pipe.value)), 1006, generation);
    }
  }

  /** A call settled with its pipe is not settled again. */
  lemma LostOnce(c: Calls)
    ensures RejectAllPending(RejectAllPending(c, "pipe closed"), "pipe closed") == RejectAllPending(c, "pipe closed")
  {
    var once := RejectAllPending(c, "pipe closed");
    var twice := RejectAllPending(once, "pipe closed");
    assert once.pending.Keys == {};
    assert twice.outcomes == once.outcomes;
  }

  lemma KeptOrLostThen(a: State, b: State, c: State)
    requires KeptOrLost(a, b) && KeptOrLost(b, c)
    ensures KeptOrLost(a, c)
  {
    LostOnce(a.calls);
    hide RejectAllPending;
  }

  lemma {:induction false} SendEachTells(s: State, io: Carrier, subs: seq<Sub>)
    ensures KeptOrLost(s, SendEach(s, io, subs))
  {
    hide SendOrClose, RejectAllPending, KeptOrLost;
    if subs == [] {
      SameCalls(s, s);
    } else {
      var init, last := subs[..|subs| - 1], subs[|subs| - 1];
      var before := SendEach(s, io, init);
      SendEachTells(s, io, init);
      SendTells(before, io, Subscribe(last.id, last.path, last.args), s.link.generation);
      KeptOrLostThen(s, before, SendEach(s, io, subs));
    }
  }

  // ---------------------------------------------------------------------------------------
  // Steps that end calls only with the pipe
  // ---------------------------------------------------------------------------------------

  /** What the invariant says of calls here: settled ones are not pending, and pending ones have a pipe. */
  lemma PendingFacts(s: State)
    requires Inv(s)
    ensures forall id: nat :: id in s.calls.pending ==> id !in s.calls.outcomes && 1 <= id <= s.calls.callSeq
    ensures s.calls.callSeq + 1 !in s.calls.outcomes && s.calls.callSeq + 1 !in s.calls.pending
    ensures s.calls.pending != map[] ==> s.link.pipe.Some?
  {}

  /** Events that end calls only by losing the pipe. */
  predicate EndsOnlyByLoss(e: Event) {
    !e.Disconnect? && !e.Request? && !(e.Deliver? && (e.msg.Result? || e.msg.CallError?))
  }

  lemma EndsByLoss(s: State, io: Carrier, e: Event, id: nat)
    requires Happens(s, e) && EndsOnlyByLoss(e)
    ensures Ends(s, io, e, id) <==> id in s.calls.pending && Next(s, io, e).link.pipe.None?
    ensures Verdict(e) == Rejected("pipe closed")
  {
    hide Next, Happens;
  }

  lemma RejectedFacts(c: Calls, id: nat)
    ensures var next := RejectAllPending(c, "pipe closed");
            && (id in next.outcomes <==> id in c.outcomes || id in c.pending)
            && (id in next.outcomes ==> next.outcomes[id] == if id in c.pending then Rejected("pipe closed") else c.outcomes[id])
  {}

  /** A step that keeps or loses the pipe rejects every pending call or none. */
  lemma LossTells(s: State, io: Carrier, e: Event, id: nat)
    requires Inv(s) && Happens(s, e) && EndsOnlyByLoss(e)
    requires KeptOrLost(s, Next(s, io, e)) || (s.calls.pending == map[] && Next(s, io, e).calls == s.calls)
    ensures Told(s, io, e, Next(s, io, e), id)
  {
    PendingFacts(s);
    hide Inv, Happens, Next, Ends, Verdict, RejectAllPending;
    EndsByLoss(s, io, e, id);
    RejectedFacts(s.calls, id);
    assert id in s.calls.pending ==> s.calls.pending != map[];
  }

  lemma MessageTells(s: State, io: Carrier, pipe: nat, msg: ServerMessage)
    requires Happens(s, Deliver(pipe, msg)) && !msg.Result? && !msg.CallError?
    ensures KeptOrLost(s, Next(s, io, Deliver(pipe, msg)))
  {
    hide SendOrClose, SendEach, KeptOrLost, Find, Put, DropFrom;
    var ready := s.(link := s.link.(reconnectAttempt := 0));
    SameCalls(s, ready);
    match msg
    case Authenticated =>
      var up := ready.(link := ClearAckTimer(ready.link.(authenticated := true)));
      SameCalls(s, up);
      SendEachTells(up, io, up.registry.subs);
      KeptOrLostThen(s, up, SendEach(up, io, up.registry.subs));
    case Subscribed(_) => SameCalls(s, Next(s, io, Deliver(pipe, msg)));
    case Invalidate(_) => SameCalls(s, Next(s, io, Deliver(pipe, msg)));
    case SubscriptionError(subject, retryable) =>
      if subject.Some? {
        RetryTells(ready, io, subject.value, retryable);
        KeptOrLostThen(s, ready, RetryOrDrop(ready, io, subject.value, retryable));
      }
    case Result(_, _) =>
    case CallError(_, _) =>
  }

  lemma SameCalls(s: State, next: State)
    requires next.calls == s.calls && next.link.pipe == s.link.pipe
    ensures KeptOrLost(s, next)
  {}

  lemma RetryTells(s: State, io: Carrier, id: string, retryable: bool)
    ensures KeptOrLost(s, RetryOrDrop(s, io, id, retryable))
  {
    hide SendOrClose, KeptOrLost, DropFrom, Put;
    var found := Find(s.registry.subs, id);
    SameCalls(s, DropSubscription(s, id));
    if retryable && found.Some? {
      var sub := found.value.(retryableErrors := found.value.retryableErrors + 1);
      var counted := s.(registry := s.registry.(subs := Put(s.registry.subs, sub)));
      SameCalls(s, counted);
      SameCalls(s, DropSubscription(counted, id));
      SendTells(counted, io, Subscribe(id, sub.path, sub.args), s.link.generation);
      KeptOrLostThen(s, counted, SendOrClose(counted, io, Subscribe(id, sub.path, sub.args), s.link.generation));
    }
  }

  lemma CallTells(s: State, io: Carrier, e: Event)
    requires Happens(s, e) && (e.AddSub? || e.RemoveSub?)
    ensures KeptOrLost(s, Next(s, io, e))
  {
    hide SendOrClose, KeptOrLost, Put, DropFrom;
    SameCalls(s, s);
    match e
    case AddSub(id, path, args, hasOnError) =>
      var r := s.registry;
      var added := s.(registry := Registry(r.handlers + {id}, if hasOnError then r.errorHandlers + {id} else r.errorHandlers - {id},
                                           Put(r.subs, Sub(id, path, args, 0))));
      SameCalls(s, added);
      SendTells(added, io, Subscribe(id, path, args), s.link.generation);
      KeptOrLostThen(s, added, SendOrClose(added, io, Subscribe(id, path, args), s.link.generation));
    case RemoveSub(id) =>
      var removed := s.(registry := DropFrom(s.registry, id));
      SameCalls(s, removed);
      SendTells(removed, io, Unsubscribe(id), s.link.generation);
      KeptOrLostThen(s, removed, SendOrClose(removed, io, Unsubscribe(id), s.link.generation));
  }

  /** Connecting, closing and timing out. */
  lemma LinkTells(s: State, io: Carrier, e: Event)
    requires Inv(s) && Happens(s, e)
    requires e.Connect? || e.CloseEvent? || e.SendRejected? || e.ReconnectFires? || e.AckTimeout? || e.TokenSettles? || e.PipeSettles?
    ensures KeptOrLost(s, Next(s, io, e)) || (s.calls.pending == map[] && Next(s, io, e).calls == s.calls)
  {
    hide HandleClose, RejectAllPending, Accounted, Registered, AllCarried;
    match e
    case CloseEvent(pipe, code) => CloseTells(s, code, pipe);
    case SendRejected(pipe) => CloseTells(Emit(s, Closed(pipe)), 1006, pipe);
    case AckTimeout(generation) => TimeoutTells(s, generation);
    case PipeSettles(generation, ok) => HeldTells(s, generation, ok);
    case Connect =>
    case ReconnectFires =>
    case TokenSettles(_, _) =>
  }

  lemma TimeoutTells(s: State, generation: nat)
    ensures KeptOrLost(s, FailAuthAck(s.(link := TimerGone(s.link, generation)), generation))
  {
    hide HandleClose, RejectAllPending;
    var gone := s.(link := TimerGone(s.link, generation));
    if generation == gone.link.generation && gone.link.pipe.Some? {
      var emitted := Emit(gone, Closed(gone.link.pipe.value));
      PipeIsForgotten(emitted, 4002, generation);
      CloseTells(emitted, 4002, generation);
    }
  }

  /** A pipe that is taken up finds no call pending and none held. */
  lemma HeldTells(s: State, generation: nat, ok: bool)
    requires Inv(s) && Happens(s, PipeSettles(generation, ok))
    ensures KeptOrLost(s, AfterPipe(s, generation, ok)) || (s.calls.pending == map[] && AfterPipe(s, generation, ok).calls == s.calls)
  {
    PendingFacts(s);
    hide Accounted, Registered, AllCarried, RejectAllPending;
  }

  lemma ReadyTells(s: State, io: Carrier, generation: nat, ok: bool)
    requires Happens(s, ReadySettles(generation, ok))
    ensures KeptOrLost(s, AfterReady(s, io, generation, ok))
  {
    hide HandleClose, SendOrClose, SendEach, KeptOrLost;
    SameCalls(s, s);
    if !ok {
      CloseTells(s, 1006, generation);
      var closed := if s.link.pipe == Some(generation) then HandleClose(s, 1006, generation) else s;
      Relinked(s, closed, AfterReady(s, io, generation, ok));
    } else if Outdated(s.link, generation) || s.link.pipe != Some(generation) {
      SameCalls(s, Emit(s, Closed(generation)));
      Relinked(s, Emit(s, Closed(generation)), AfterReady(s, io, generation, ok));
    } else {
      var up := s.(link := s.link.(connected := true, authenticated := !s.link.requiresAuth));
      SendTells(up, io, Auth(s.link.runs[generation].token), generation);
      SendEachTells(up, io, up.registry.subs);
      SameCalls(up, up);
      var sent := if s.link.requiresAuth then SendOrClose(up, io, Auth(s.link.runs[generation].token), generation) else SendSubscriptions(up, io);
      FromHere(s, up, sent);
      Relinked(s, sent, AfterReady(s, io, generation, ok));
    }
  }

  lemma FromHere(s: State, up: State, next: State)
    requires up.calls == s.calls && up.link.pipe == s.link.pipe && KeptOrLost(up, next)
    ensures KeptOrLost(s, next)
  {
    hide RejectAllPending;
  }

  lemma Relinked(s: State, next: State, relinked: State)
    requires KeptOrLost(s, next)
    requires relinked.calls == next.calls && relinked.link.pipe == next.link.pipe
    ensures KeptOrLost(s, relinked)
  {
    hide RejectAllPending;
  }

  // ---------------------------------------------------------------------------------------
  // Every step
  // ---------------------------------------------------------------------------------------

  lemma SettleTells(c: Calls, call: nat, outcome: Outcome, id: nat)
    ensures var next := Settle(c, call, outcome);
            && (id in next.outcomes <==> id in c.outcomes || id == call)
            && (id in next.outcomes ==> next.outcomes[id] == if id == call then outcome else c.outcomes[id])
  {}

  lemma ResultTells(s: State, io: Carrier, pipe: nat, call: nat, data: string, id: nat)
    requires Inv(s) && Happens(s, Deliver(pipe, Result(call, data)))
    ensures Told(s, io, Deliver(pipe, Result(call, data)), Next(s, io, Deliver(pipe, Result(call, data))), id)
  {
    PendingFacts(s);
    hide Inv, Settle;
    SettleTells(s.calls, call, Resolved(data), id);
  }

  lemma ErrorTells(s: State, io: Carrier, pipe: nat, target: nat, error: string, id: nat)
    requires Inv(s) && Happens(s, Deliver(pipe, CallError(Some(target), error)))
    ensures Told(s, io, Deliver(pipe, CallError(Some(target), error)), Next(s, io, Deliver(pipe, CallError(Some(target), error))), id)
  {
    PendingFacts(s);
    hide Inv, Settle;
    SettleTells(s.calls, target, Rejected(error), id);
  }

  lemma ComplaintTells(s: State, io: Carrier, pipe: nat, error: string, id: nat)
    requires Inv(s) && Happens(s, Deliver(pipe, CallError(None, error)))
    ensures Told(s, io, Deliver(pipe, CallError(None, error)), Next(s, io, Deliver(pipe, CallError(None, error))), id)
  {
    PendingFacts(s);
    hide Inv, RejectActions;
    ActionsTell(s.calls, id);
  }

  lemma ActionsTell(c: Calls, id: nat)
    ensures var next := RejectActions(c);
            && (id in next.outcomes <==> id in c.outcomes || (id in c.pending && c.pending[id] == Action))
            && (id in next.outcomes ==>
                  next.outcomes[id]
                  == if id in c.pending && c.pending[id] == Action then Rejected("Server does not support Action frames") else c.outcomes[id])
  {}

  lemma DisconnectTells(s: State, io: Carrier, id: nat)
    requires Inv(s)
    ensures Told(s, io, Disconnect, Next(s, io, Disconnect), id)
  {
    PendingFacts(s);
    hide Inv, ClearAckTimer, DetachPipe;
  }

  lemma RequestTells(s: State, io: Carrier, kind: CallType, path: string, args: string, id: nat)
    requires Inv(s)
    ensures Told(s, io, Request(kind, path, args), Next(s, io, Request(kind, path, args)), id)
  {
    PendingFacts(s);
    hide Inv, Settle;
    var issued := Issue(s.calls, kind);
    SettleTells(issued, issued.callSeq, Rejected("send failed"), id);
  }

  /** Every step tells exactly the calls it ends, and tells them what ended them. */
  lemma StepTells(s: State, io: Carrier, e: Event, id: nat)
    requires Inv(s) && Happens(s, e)
    ensures Told(s, io, e, Next(s, io, e), id)
  {
    hide Inv, Next, Happens, Told, KeptOrLost;
    match e
    case Request(kind, path, args) => RequestTells(s, io, kind, path, args, id);
    case Disconnect => DisconnectTells(s, io, id);
    case Deliver(pipe, msg) =>
      if msg.Result? {
        ResultTells(s, io, pipe, msg.call, msg.data, id);
      } else if msg.CallError? && msg.target.Some? {
        ErrorTells(s, io, pipe, msg.target.value, msg.error, id);
      } else if msg.CallError? {
        ComplaintTells(s, io, pipe, msg.error, id);
      } else {
        MessageTells(s, io, pipe, msg);
        LossTells(s, io, e, id);
      }
    case AddSub(_, _, _, _) => CallTells(s, io, e); LossTells(s, io, e, id);
    case RemoveSub(_) => CallTells(s, io, e); LossTells(s, io, e, id);
    case ReadySettles(generation, ok) => ReadyStepTells(s, io, generation, ok); LossTells(s, io, e, id);
    case _ => LinkTells(s, io, e); LossTells(s, io, e, id);
  }

  lemma ReadyStepTells(s: State, io: Carrier, generation: nat, ok: bool)
    requires Happens(s, ReadySettles(generation, ok))
    ensures KeptOrLost(s, Next(s, io, ReadySettles(generation, ok)))
  {
    hide AfterReady, KeptOrLost, HandleMessage, HandleClose, FailAuthAck, DoSubscribe, DoUnsubscribe, DoInvoke, DoDisconnect, AfterToken, AfterPipe,
      DoConnect;
    ReadyTells(s, io, generation, ok);
  }

  // ---------------------------------------------------------------------------------------
  // Runs
  // ---------------------------------------------------------------------------------------

  /** The state before the k-th event of a run. */
  ghost function Before(s: State, io: Carrier, events: seq<Event>, k: nat): State
    requires Runs(s, io, events) && k <= |events|
    decreases |events|
  {
    if k == 0 then s else Before(Next(s, io, events[0]), io, events[1..], k - 1)
  }

  lemma {:induction false} EventHappens(s: State, io: Carrier, events: seq<Event>, k: nat)
    requires Runs(s, io, events) && k < |events|
    ensures Happens(Before(s, io, events, k), events[k])
    decreases |events|
  {
    hide Happens, Next;
    if k > 0 {
      EventHappens(Next(s, io, events[0]), io, events[1..], k - 1);
    }
  }

  /** The k-th event ends the call. */
  ghost predicate EndsAt(s: State, io: Carrier, events: seq<Event>, k: nat, id: nat)
    requires Runs(s, io, events)
  {
    k < |events| && Happens(Before(s, io, events, k), events[k]) && Ends(Before(s, io, events, k), io, events[k], id)
  }

  /** An outcome is never revised, and a call that has one is not ended again. */
  lemma {:induction false} ToldOnce(s: State, io: Carrier, events: seq<Event>, id: nat, k: nat)
    requires Inv(s) && Runs(s, io, events) && id in s.calls.outcomes
    ensures id in Take(s, io, events).calls.outcomes && Take(s, io, events).calls.outcomes[id] == s.calls.outcomes[id]
    ensures !EndsAt(s, io, events, k, id)
    decreases |events|
  {
    hide Inv, Happens, Next, Ends, Verdict;
    if events != [] {
      StepKeepsInv(s, io, events[0]);
      StepTells(s, io, events[0], id);
      ToldOnce(Next(s, io, events[0]), io, events[1..], id, if k == 0 then 0 else k - 1);
    }
  }

  /** The event that ends a call decides its outcome for good. */
  lemma {:induction false} EndDecides(s: State, io: Carrier, events: seq<Event>, k: nat, id: nat)
    requires Inv(s) && Runs(s, io, events) && EndsAt(s, io, events, k, id)
    ensures id in Take(s, io, events).calls.outcomes && Take(s, io, events).calls.outcomes[id] == Verdict(events[k])
    decreases |events|
  {
    hide Inv, Happens, Next, Ends, Verdict;
    StepKeepsInv(s, io, events[0]);
    StepTells(s, io, events[0], id);
    var next := Next(s, io, events[0]);
    if k == 0 {
      ToldOnce(next, io, events[1..], id, 0);
    } else {
      EndDecides(next, io, events[1..], k - 1, id);
    }
  }

  /** Every outcome was given by one event of the run. */
  lemma {:induction false} OutcomeHasEnd(s: State, io: Carrier, events: seq<Event>, id: nat) returns (k: nat)
    requires Inv(s) && Runs(s, io, events) && id !in s.calls.outcomes && id in Take(s, io, events).calls.outcomes
    ensures EndsAt(s, io, events, k, id)
    decreases |events|
  {
    hide Inv, Happens, Next, Ends, Verdict;
    StepKeepsInv(s, io, events[0]);
    StepTells(s, io, events[0], id);
    var next := Next(s, io, events[0]);
    if id in next.calls.outcomes {
      k := 0;
    } else {
      k := OutcomeHasEnd(next, io, events[1..], id);
      k := k + 1;
    }
  }

  lemma {:induction false} EndsOnce(s: State, io: Carrier, events: seq<Event>, id: nat, j: nat, k: nat)
    requires Inv(s) && Runs(s, io, events) && EndsAt(s, io, events, j, id) && EndsAt(s, io, events, k, id)
    ensures j == k
    decreases |events|
  {
    hide Inv, Happens, Next, Ends, Verdict;
    StepKeepsInv(s, io, events[0]);
    StepTells(s, io, events[0], id);
    var next := Next(s, io, events[0]);
    if j > 0 && k > 0 {
      EndsOnce(next, io, events[1..], id, j - 1, k - 1);
    } else if j != k {
      ToldOnce(next, io, events[1..], id, Later(j, k) - 1);
    }
  }

  function Later(j: nat, k: nat): nat {
    if j < k then k else j
  }

  /** In every run a call has an outcome exactly if some event ended it, at most one did, and the outcome is that event's verdict. */
  lemma OutcomeIsVerdict(requiresAuth: bool, io: Carrier, events: seq<Event>, id: nat)
    requires Runs(Created(requiresAuth), io, events)
    ensures var start, outcomes := Created(requiresAuth), Take(Created(requiresAuth), io, events).calls.outcomes;
            && (id in outcomes <==> exists k: nat :: EndsAt(start, io, events, k, id))
            && (forall k: nat :: EndsAt(start, io, events, k, id) ==> id in outcomes && outcomes[id] == Verdict(events[k]))
            && forall j: nat, k: nat :: EndsAt(start, io, events, j, id) && EndsAt(start, io, events, k, id) ==> j == k
  {
    hide Inv, Happens, Next, Ends, Verdict;
    CreatedIsInv(requiresAuth);
    var start := Created(requiresAuth);
    if id in Take(start, io, events).calls.outcomes {
      var k := OutcomeHasEnd(start, io, events, id);
    }
    forall k: nat | k < |events| && EndsAt(start, io, events, k, id)
      ensures id in Take(start, io, events).calls.outcomes && Take(start, io, events).calls.outcomes[id] == Verdict(events[k])
    {
      EndDecides(start, io, events, k, id);
    }
    forall j: nat, k: nat | EndsAt(start, io, events, j, id) && EndsAt(start, io, events, k, id)
      ensures j == k
    {
      EndsOnce(start, io, events, id, j, k);
    }
  }

  /** The k-th event delivers a result for the call, from the pipe that is held, while the call is pending. */
  ghost predicate AnsweredAt(s: State, io: Carrier, events: seq<Event>, k: nat, id: nat, data: string)
    requires Runs(s, io, events)
  {
    && k < |events| && id in Before(s, io, events, k).calls.pending
    && exists pipe: nat :: events[k] == Deliver(pipe, Result(id, data)) && Before(s, io, events, k).link.pipe == Some(pipe)
  }

  /** In every run a call resolves with `data` if and only if the held pipe delivered that result for it while it was pending. */
  lemma ResolvedIffAnswered(requiresAuth: bool, io: Carrier, events: seq<Event>, id: nat, data: string)
    requires Runs(Created(requiresAuth), io, events)
    ensures var outcomes := Take(Created(requiresAuth), io, events).calls.outcomes;
            (id in outcomes && outcomes[id] == Resolved(data)) <==> exists k: nat :: AnsweredAt(Created(requiresAuth), io, events, k, id, data)
  {
    var start := Created(requiresAuth);
    OutcomeIsVerdict(requiresAuth, io, events, id);
    hide Happens, Next, Runs, Take, Before;
    var outcomes := Take(start, io, events).calls.outcomes;
    if id in outcomes && outcomes[id] == Resolved(data) {
      var k: nat :| EndsAt(start, io, events, k, id);
      BeforeIsInv(start, io, events, k);
      ResolvedByResult(events[k], data);
      HeldDelivers(Before(start, io, events, k), events[k].pipe, events[k].msg);
      assert events[k] == Deliver(events[k].pipe, Result(id, data));
      assert AnsweredAt(start, io, events, k, id, data);
    }
    if k: nat :| AnsweredAt(start, io, events, k, id, data) {
      EventHappens(start, io, events, k);
      assert EndsAt(start, io, events, k, id);
    }
  }

  lemma ResolvedByResult(e: Event, data: string)
    requires Verdict(e) == Resolved(data)
    ensures e.Deliver? && e.msg.Result? && e.msg.data == data
  {}

  lemma HeldDelivers(s: State, pipe: nat, msg: ServerMessage)
    requires Inv(s) && Happens(s, Deliver(pipe, msg))
    ensures s.link.pipe == Some(pipe)
  {
    hide Accounted, Registered, AllCarried;
  }

  lemma {:induction false} BeforeIsInv(start: State, io: Carrier, events: seq<Event>, k: nat)
    requires Inv(start) && Runs(start, io, events) && k <= |events|
    ensures Inv(Before(start, io, events, k))
    decreases |events|
  {
    hide Inv, Happens, Next;
    if k > 0 {
      StepKeepsInv(start, io, events[0]);
      BeforeIsInv(Next(start, io, events[0]), io, events[1..], k - 1);
    }
  }
}
