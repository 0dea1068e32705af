/**
 * The client engine as a state machine (packages/client/src/engine.ts): one step per public
 * call, message, timer and resumed `await`. `ClientEngine` has the imperative form.
 */
module ClientProtocol {
  import opened Common

  const MAX_RETRYABLE_SUBSCRIPTION_ERRORS: nat := 3

  datatype Sub = Sub(id: string, path: string, args: string, retryableErrors: nat)

  datatype CallType = Call | Action

  datatype Outcome = Resolved(data: string) | Rejected(reason: string)

  datatype Frame =
    | Auth(token: Option<string>)
    | Subscribe(id: string, path: string, args: string)
    | Unsubscribe(id: string)
    | Invoke(kind: CallType, call: nat, path: string, args: string)

  datatype ServerMessage =
    | Authenticated
    | Subscribed(id: string)
    | Invalidate(id: string)
    | Result(call: nat, data: string)
    | SubscriptionError(subject: Option<string>, retryable: bool)
    | CallError(target: Option<nat>, error: string)

  /** What the outside sees. A pipe is named by the connect attempt that opened it. */
  datatype Effect =
    | Opened(pipe: nat)
    | Closed(pipe: nat)
    | Sent(pipe: nat, frame: Frame)
    | Notified(ids: set<string>)
    | Failed(id: string)

  /** Where an attempt's asynchronous part is waiting. */
  datatype Await = AwaitToken | AwaitPipe(token: Option<string>) | AwaitReady(token: Option<string>)

  /**
   * `openedPipes`, `listening` and `runs` stand for the pipes, message handlers and continuations the
   * runtime holds; `detach` is the pipe whose handlers the stored unsubscribe functions remove.
   */
  datatype Link = Link(
    requiresAuth: bool,
    pipe: Option<nat>,
    connected: bool,
    connecting: bool,
    authenticated: bool,
    authFailed: bool,
    generation: nat,
    reconnectTimer: bool,
    reconnectAttempt: nat,
    ackTimer: Option<nat>,
    timers: set<nat>,
    runs: map<nat, Await>,
    openedPipes: set<nat>,
    listening: set<nat>,
    detach: Option<nat>)

  datatype Registry = Registry(handlers: set<string>, errorHandlers: set<string>, subs: seq<Sub>)

  /** `settled` counts settlements of each promise, `outcomes` the last one. */
  datatype Calls = Calls(pending: map<nat, CallType>, callSeq: nat, settled: multiset<nat>, outcomes: map<nat, Outcome>)

  datatype State = State(link: Link, registry: Registry, calls: Calls, log: seq<Effect>)

  function Created(requiresAuth: bool): State {
    State(Link(requiresAuth, None, false, false, false, false, 0, false, 0, None, {}, map[], {}, {}, None),
          Registry({}, {}, []), Calls(map[], 0, multiset{}, map[]), [])
  }

  /** Whether the carrier takes the frame sent as the n-th effect; otherwise the send throws. */
  type Carrier = nat -> bool

  datatype Event =
    | Connect
    | Disconnect
    | AddSub(id: string, path: string, args: string, hasOnError: bool)
    | RemoveSub(id: string)
    | Request(kind: CallType, path: string, args: string)
    | Deliver(pipe: nat, msg: ServerMessage)
    | CloseEvent(pipe: nat, code: nat)
    | SendRejected(pipe: nat)
    | ReconnectFires
    | AckTimeout(generation: nat)
    | TokenSettles(generation: nat, token: Option<Option<string>>)
    | PipeSettles(generation: nat, ok: bool)
    | ReadySettles(generation: nat, ok: bool)

  // ---------------------------------------------------------------------------------------
  // Subscriptions, in insertion order
  // ---------------------------------------------------------------------------------------

  function Ids(subs: seq<Sub>): set<string> {
    if subs == [] then {} else {subs[0].id} + Ids(subs[1..])
  }

  predicate DistinctIds(subs: seq<Sub>) {
    subs == [] || (subs[0].id !in Ids(subs[1..]) && DistinctIds(subs[1..]))
  }

  function Find(subs: seq<Sub>, id: string): (found: Option<Sub>)
    ensures found.Some? <==> id in Ids(subs)
    ensures found.Some? ==> found.value in subs && found.value.id == id
  {
    if subs == [] then None
    else if subs[0].id == id then Some(subs[0])
    else Find(subs[1..], id)
  }

  /** `Map.set`: an existing entry keeps its place. */
  function Put(subs: seq<Sub>, sub: Sub): seq<Sub> {
    if subs == [] then [sub]
    else if subs[0].id == sub.id then [sub] + subs[1..]
    else [subs[0]] + Put(subs[1..], sub)
  }

  function Remove(subs: seq<Sub>, id: string): seq<Sub> {
    if subs == [] then []
    else if subs[0].id == id then Remove(subs[1..], id)
    else [subs[0]] + Remove(subs[1..], id)
  }

  // ---------------------------------------------------------------------------------------
  // Internal steps
  // ---------------------------------------------------------------------------------------

  /** Clearing a handle stops the timer it names. */
  function Without(timers: set<nat>, handle: Option<nat>): set<nat> {
    if handle.Some? then timers - {handle.value} else timers
  }

  function ClearAckTimer(l: Link): Link {
    l.(ackTimer := None, timers := Without(l.timers, l.ackTimer))
  }

  function RejectAllPending(c: Calls, reason: string): Calls {
    c.(pending := map[],
       settled := c.settled + multiset(c.pending.Keys),
       outcomes := map id | id in c.outcomes.Keys + c.pending.Keys :: if id in c.pending then Rejected(reason) else c.outcomes[id])
  }

  function Settle(c: Calls, call: nat, outcome: Outcome): Calls {
    c.(pending := c.pending - {call}, settled := c.settled + multiset{call}, outcomes := c.outcomes[call := outcome])
  }

  function ScheduleReconnect(l: Link): Link {
    if l.authFailed || l.reconnectTimer then l
    else l.(reconnectTimer := true, reconnectAttempt := l.reconnectAttempt + 1)
  }

  function Emit(s: State, e: Effect): State {
    s.(log := s.log + [e])
  }

  /** The stored unsubscribe functions, called and forgotten. */
  function DetachPipe(l: Link): Link {
    l.(listening := if l.detach.Some? then l.listening - {l.detach.value} else l.listening, detach := None)
  }

  function Lose(l: Link): Link {
    ClearAckTimer(DetachPipe(l).(pipe := None, connected := false, authenticated := false))
  }

  function HandleClose(s: State, code: nat, ownGeneration: nat): State {
    if ownGeneration != s.link.generation then s
    else
      var calls := RejectAllPending(s.calls, "pipe closed");
      if code == 4001 then
        s.(link := Lose(s.link).(authFailed := true), calls := calls, log := s.log + [Notified(s.registry.handlers)])
      else
        s.(link := ScheduleReconnect(Lose(s.link)), calls := calls)
  }

  function SendOrClose(s: State, io: Carrier, frame: Frame, generation: nat): State {
    if s.link.pipe.None? then s
    else if io(|s.log|) then Emit(s, Sent(s.link.pipe.value, frame))
    else HandleClose(Emit(s, Closed(s.link.pipe.value)), 1006, generation)
  }

  function SendEach(s: State, io: Carrier, subs: seq<Sub>): State {
    if subs == [] then s
    else
      var last := subs[|subs| - 1];
      SendOrClose(SendEach(s, io, subs[..|subs| - 1]), io, Subscribe(last.id, last.path, last.args), s.link.generation)
  }

  function SendSubscriptions(s: State, io: Carrier): State {
    if s.link.pipe.None? || !s.link.authenticated then s else SendEach(s, io, s.registry.subs)
  }

  function DropFrom(r: Registry, id: string): Registry {
    Registry(r.handlers - {id}, r.errorHandlers - {id}, Remove(r.subs, id))
  }

  function DropSubscription(s: State, id: string): State {
    var dropped := s.(registry := DropFrom(s.registry, id));
    if id in s.registry.errorHandlers then Emit(dropped, Failed(id)) else dropped
  }

  function RetryOrDrop(s: State, io: Carrier, id: string, retryable: bool): State {
    var found := Find(s.registry.subs, id);
    if !retryable || found.None? then DropSubscription(s, id)
    else
      var sub := found.value.(retryableErrors := found.value.retryableErrors + 1);
      var counted := s.(registry := s.registry.(subs := Put(s.registry.subs, sub)));
      if sub.retryableErrors > MAX_RETRYABLE_SUBSCRIPTION_ERRORS then DropSubscription(counted, id)
      else SendOrClose(counted, io, Subscribe(id, sub.path, sub.args), s.link.generation)
  }

  /** An old server's answer to an action frame it does not know. */
  function RejectActions(c: Calls): Calls {
    var actions := set id | id in c.pending && c.pending[id] == Action;
    c.(pending := c.pending - actions,
       settled := c.settled + multiset(actions),
       outcomes := map id | id in c.outcomes.Keys + actions ::
         if id in actions then Rejected("Server does not support Action frames") else c.outcomes[id])
  }

  function HandleMessage(before: State, io: Carrier, msg: ServerMessage): State {
    var s := before.(link := before.link.(reconnectAttempt := 0));
    match msg
    case Authenticated =>
      if s.link.authenticated then s
      else SendSubscriptions(s.(link := ClearAckTimer(s.link.(authenticated := true))), io)
    case Subscribed(id) =>
      var found := Find(s.registry.subs, id);
      if found.None? then s
      else s.(registry := s.registry.(subs := Put(s.registry.subs, found.value.(retryableErrors := 0))))
    case Invalidate(id) =>
      if id in s.registry.handlers then Emit(s, Notified({id})) else s
    case Result(call, data) =>
      if call in s.calls.pending then s.(calls := Settle(s.calls, call, Resolved(data))) else s
    case SubscriptionError(subject, retryable) =>
      if subject.None? then s else RetryOrDrop(s, io, subject.value, retryable)
    case CallError(target, error) =>
      if target.Some? then
        if target.value in s.calls.pending then s.(calls := Settle(s.calls, target.value, Rejected(error))) else s
      else if error == "invalid message" then s.(calls := RejectActions(s.calls))
      else s
  }

  function FailAuthAck(s: State, ownGeneration: nat): State {
    if ownGeneration != s.link.generation || s.link.pipe.None? then s
    else HandleClose(Emit(s, Closed(s.link.pipe.value)).(link := DetachPipe(s.link).(pipe := None)), 4002, ownGeneration)
  }

  // ---------------------------------------------------------------------------------------
  // Connecting
  // ---------------------------------------------------------------------------------------

  function DoConnect(s: State): State {
    var l := s.link;
    if l.authFailed || l.pipe.Some? || l.connecting then s
    else s.(link := l.(connecting := true, generation := l.generation + 1, runs := l.runs[l.generation + 1 := AwaitToken]))
  }

  /** The attempt's asynchronous part is over. */
  function Finish(l: Link, generation: nat): Link {
    l.(runs := l.runs - {generation}, connecting := if generation == l.generation then false else l.connecting)
  }

  /** It threw: schedule a retry unless a newer attempt owns the engine. */
  function FinishWithError(l: Link, generation: nat): Link {
    Finish(if generation == l.generation then ScheduleReconnect(l) else l, generation)
  }

  predicate Outdated(l: Link, generation: nat) {
    generation != l.generation || l.authFailed
  }

  function AfterToken(s: State, generation: nat, token: Option<Option<string>>): State {
    if token.None? then s.(link := FinishWithError(s.link, generation))
    else if Outdated(s.link, generation) then s.(link := Finish(s.link, generation))
    else s.(link := s.link.(runs := s.link.runs[generation := AwaitPipe(token.value)]))
  }

  function AfterPipe(s: State, generation: nat, ok: bool): State
    requires generation in s.link.runs && s.link.runs[generation].AwaitPipe?
  {
    if !ok then s.(link := FinishWithError(s.link, generation))
    else if Outdated(s.link, generation) then Emit(s, Closed(generation)).(link := Finish(s.link, generation))
    else Emit(s, Opened(generation)).(link := Hold(s.link, generation))
  }

  function Hold(l: Link, generation: nat): Link
    requires generation in l.runs && l.runs[generation].AwaitPipe?
  {
    l.(pipe := Some(generation), openedPipes := l.openedPipes + {generation}, listening := l.listening + {generation}, detach := Some(generation),
       runs := l.runs[generation := AwaitReady(l.runs[generation].token)])
  }

  function AfterReady(s: State, io: Carrier, generation: nat, ok: bool): State
    requires generation in s.link.runs && s.link.runs[generation].AwaitReady?
  {
    if !ok then
      var closed := if s.link.pipe == Some(generation) then HandleClose(s, 1006, generation) else s;
      closed.(link := Finish(closed.link, generation))
    else if Outdated(s.link, generation) || s.link.pipe != Some(generation) then
      Emit(s, Closed(generation)).(link := Finish(s.link, generation))
    else
      var up := s.(link := s.link.(connected := true, authenticated := !s.link.requiresAuth));
      var greeted := if s.link.requiresAuth then StartAuth(up, io, s.link.runs[generation].token, generation) else SendSubscriptions(up, io);
      greeted.(link := Finish(greeted.link, generation))
  }

  /** The timer starts whether or not the send went through. */
  function StartAuth(s: State, io: Carrier, token: Option<string>, generation: nat): State {
    var sent := SendOrClose(s, io, Auth(token), generation);
    sent.(link := sent.link.(ackTimer := Some(generation), timers := sent.link.timers + {generation}))
  }

  function DoDisconnect(s: State): State {
    var cleared := ClearAckTimer(s.link.(generation := s.link.generation + 1, connecting := false, reconnectTimer := false));
    var dropped := if cleared.pipe.Some? then DetachPipe(cleared) else cleared;
    var down := dropped.(connected := false, authenticated := false, authFailed := false, pipe := None);
    State(down, s.registry, RejectAllPending(s.calls, "disconnected"),
          if s.link.pipe.Some? then s.log + [Closed(s.link.pipe.value)] else s.log)
  }

  // ---------------------------------------------------------------------------------------
  // Public calls
  // ---------------------------------------------------------------------------------------

  function DoSubscribe(s: State, io: Carrier, id: string, path: string, args: string, hasOnError: bool): State {
    var r := s.registry;
    var added := s.(registry := Registry(
      r.handlers + {id},
      if hasOnError then r.errorHandlers + {id} else r.errorHandlers - {id},
      Put(r.subs, Sub(id, path, args, 0))));
    if s.link.pipe.Some? && s.link.authenticated then SendOrClose(added, io, Subscribe(id, path, args), s.link.generation) else added
  }

  function DoUnsubscribe(s: State, io: Carrier, id: string): State {
    var removed := s.(registry := DropFrom(s.registry, id));
    if s.link.pipe.Some? && s.link.authenticated then SendOrClose(removed, io, Unsubscribe(id), s.link.generation) else removed
  }

  predicate CanInvoke(l: Link) {
    l.pipe.Some? && l.connected && (l.requiresAuth ==> l.authenticated)
  }

  function Issue(c: Calls, kind: CallType): Calls {
    c.(callSeq := c.callSeq + 1, pending := c.pending[c.callSeq + 1 := kind])
  }

  /** A send that throws is the caller's bad argument: that call alone is rejected. */
  function DoInvoke(s: State, io: Carrier, kind: CallType, path: string, args: string): State {
    if !CanInvoke(s.link) then s
    else
      var issued := s.(calls := Issue(s.calls, kind));
      if io(|s.log|) then Emit(issued, Sent(s.link.pipe.value, Frame.Invoke(kind, issued.calls.callSeq, path, args)))
      else issued.(calls := Settle(issued.calls, issued.calls.callSeq, Rejected("send failed")))
  }

  // ---------------------------------------------------------------------------------------
  // Steps
  // ---------------------------------------------------------------------------------------

  /** Messages come from pipes with the message handler on them; closes and send failures from any pipe ever opened. */
  predicate Happens(s: State, e: Event) {
    var l := s.link;
    match e
    case Deliver(pipe, _) => pipe in l.listening
    case CloseEvent(pipe, _) => pipe in l.openedPipes
    case SendRejected(pipe) => pipe in l.openedPipes
    case ReconnectFires => l.reconnectTimer
    case AckTimeout(generation) => generation in l.timers
    case TokenSettles(generation, _) => generation in l.runs && l.runs[generation].AwaitToken?
    case PipeSettles(generation, _) => generation in l.runs && l.runs[generation].AwaitPipe?
    case ReadySettles(generation, _) => generation in l.runs && l.runs[generation].AwaitReady?
    case _ => true
  }

  function Next(s: State, io: Carrier, e: Event): State
    requires Happens(s, e)
  {
    match e
    case Connect => DoConnect(s)
    case Disconnect => DoDisconnect(s)
    case AddSub(id, path, args, hasOnError) => DoSubscribe(s, io, id, path, args, hasOnError)
    case RemoveSub(id) => DoUnsubscribe(s, io, id)
    case Request(kind, path, args) => DoInvoke(s, io, kind, path, args)
    case Deliver(_, msg) => HandleMessage(s, io, msg)
    case CloseEvent(pipe, code) => HandleClose(s, code, pipe)
    case SendRejected(pipe) => HandleClose(Emit(s, Closed(pipe)), 1006, pipe)
    case ReconnectFires => DoConnect(s.(link := s.link.(reconnectTimer := false)))
    case AckTimeout(generation) => FailAuthAck(s.(link := TimerGone(s.link, generation)), generation)
    case TokenSettles(generation, token) => AfterToken(s, generation, token)
    case PipeSettles(generation, ok) => AfterPipe(s, generation, ok)
    case ReadySettles(generation, ok) => AfterReady(s, io, generation, ok)
  }

  function TimerGone(l: Link, generation: nat): Link {
    l.(timers := l.timers - {generation}, ackTimer := None)
  }
}
