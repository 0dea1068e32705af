/**
 * What every run of the client engine keeps: call ids are fresh and settle once, calls are
 * pending only on the held pipe of the current generation, an authenticated pipe carries every
 * subscription, and a refused credential opens no pipe until disconnect.
 */
module ClientSafety {
  import opened Common
  import opened ClientProtocol

  // ---------------------------------------------------------------------------------------
  // The invariant
  // ---------------------------------------------------------------------------------------

  ghost predicate Linked(l: Link) {
    && (l.pipe.Some? ==> l.pipe.value == l.generation && l.generation in l.openedPipes)
    && (l.connected || l.authenticated ==> l.pipe.Some?)
    && l.detach == l.pipe && l.listening == (if l.pipe.Some? then {l.pipe.value} else {})
    && (l.authFailed ==> l.pipe.None? && l.generation in l.openedPipes)
    && (forall p :: p in l.openedPipes ==> 1 <= p <= l.generation)
    && (forall g :: g in l.runs ==> 1 <= g <= l.generation)
    && (forall g :: g in l.runs ==> (l.runs[g].AwaitReady? <==> g in l.openedPipes))
    && (l.connecting ==> l.generation in l.runs)
    && l.timers <= l.openedPipes
    && (l.ackTimer.Some? ==> l.ackTimer.value in l.timers)
  }

  /** Ids 1 to `callSeq` were issued; each is pending, or settled once. */
  ghost predicate Accounted(c: Calls) {
    && (forall id: nat :: id in c.pending ==> 1 <= id <= c.callSeq)
    && (forall id: nat :: c.settled[id] == if 1 <= id <= c.callSeq && id !in c.pending then 1 else 0)
    && (forall id: nat :: id in c.outcomes <==> id in c.settled)
  }

  ghost predicate Registered(r: Registry) {
    && DistinctIds(r.subs)
    && Ids(r.subs) == r.handlers && r.errorHandlers <= r.handlers
    && (forall t :: t in r.subs ==> t.retryableErrors <= MAX_RETRYABLE_SUBSCRIPTION_ERRORS)
  }

  ghost predicate Base(s: State) {
    && Linked(s.link) && Accounted(s.calls) && Registered(s.registry)
    && (s.calls.pending != map[] ==> s.link.connected)
  }

  predicate About(frame: Frame, id: string) {
    (frame.Subscribe? || frame.Unsubscribe?) && frame.id == id
  }

  /** The last frame about a subscription that went out on a pipe. */
  function LastAbout(log: seq<Effect>, pipe: nat, id: string): Option<Frame> {
    if log == [] then None
    else
      var e := log[|log| - 1];
      if e.Sent? && e.pipe == pipe && About(e.frame, id) then Some(e.frame) else LastAbout(log[..|log| - 1], pipe, id)
  }

  ghost predicate Carries(s: State, sub: Sub) {
    s.link.pipe.Some? && LastAbout(s.log, s.link.pipe.value, sub.id) == Some(Subscribe(sub.id, sub.path, sub.args))
  }

  ghost predicate AllCarried(s: State) {
    forall t :: t in s.registry.subs ==> Carries(s, t)
  }

  /** While authenticated the server has been told of every subscription, with its latest path and arguments. */
  ghost predicate Inv(s: State) {
    Base(s) && (s.link.authenticated ==> AllCarried(s))
  }

  // ---------------------------------------------------------------------------------------
  // Subscriptions
  // ---------------------------------------------------------------------------------------

  lemma {:induction false} MemberHasId(subs: seq<Sub>, t: Sub)
    requires t in subs
    ensures t.id in Ids(subs)
  {
    if subs[0] != t {
      MemberHasId(subs[1..], t);
    }
  }

  lemma {:induction false} PutFacts(subs: seq<Sub>, sub: Sub)
    requires DistinctIds(subs)
    ensures DistinctIds(Put(subs, sub)) && Ids(Put(subs, sub)) == Ids(subs) + {sub.id}
    ensures forall t :: t in Put(subs, sub) <==> t == sub || (t in subs && t.id != sub.id)
  {
    if subs == [] {
    } else {
      var rest := subs[1..];
      assert subs == [subs[0]] + rest;
      if subs[0].id == sub.id {
        assert ([sub] + rest)[1..] == rest;
        forall t | t in rest
          ensures t.id != sub.id
        {
          MemberHasId(rest, t);
        }
      } else {
        PutFacts(rest, sub);
        assert ([subs[0]] + Put(rest, sub))[1..] == Put(rest, sub);
      }
    }
  }

  lemma {:induction false} RemoveFacts(subs: seq<Sub>, id: string)
    requires DistinctIds(subs)
    ensures DistinctIds(Remove(subs, id)) && Ids(Remove(subs, id)) == Ids(subs) - {id}
    ensures forall t :: t in Remove(subs, id) <==> t in subs && t.id != id
  {
    if subs != [] {
      var rest := subs[1..];
      assert subs == [subs[0]] + rest;
      RemoveFacts(rest, id);
      assert ([subs[0]] + Remove(rest, id))[1..] == Remove(rest, id);
    }
  }

  // ---------------------------------------------------------------------------------------
  // Closing and sending
  // ---------------------------------------------------------------------------------------

  lemma RejectAllKeeps(c: Calls, reason: string)
    requires Accounted(c)
    ensures Accounted(RejectAllPending(c, reason)) && RejectAllPending(c, reason).pending == map[]
  {}

  lemma SettleKeeps(c: Calls, call: nat, outcome: Outcome)
    requires Accounted(c) && call in c.pending
    ensures Accounted(Settle(c, call, outcome))
  {}

  lemma LoseKeeps(l: Link)
    requires Linked(l)
    ensures Linked(Lose(l)) && Linked(ScheduleReconnect(Lose(l)))
    ensures l.generation in l.openedPipes ==> Linked(Lose(l).(authFailed := true))
  {}

  ghost predicate IsDown(s: State, next: State) {
    && next.link.pipe.None? && !next.link.connected && !next.link.authenticated
    && next.registry == s.registry && next.link.generation == s.link.generation && next.calls.pending == map[]
  }

  /** A close of the current generation leaves the engine down; one of an older generation changes nothing. */
  lemma CloseKeeps(s: State, code: nat, generation: nat)
    requires Base(s) && generation in s.link.openedPipes
    ensures Base(HandleClose(s, code, generation))
    ensures generation == s.link.generation ==> IsDown(s, HandleClose(s, code, generation))
    ensures generation != s.link.generation ==> HandleClose(s, code, generation) == s
  {
    hide Linked, Accounted, Registered, RejectAllPending;
    LoseKeeps(s.link);
    RejectAllKeeps(s.calls, "pipe closed");
  }

  lemma LastAfter(log: seq<Effect>, e: Effect, pipe: nat, id: string)
    ensures LastAbout(log + [e], pipe, id)
         == if e.Sent? && e.pipe == pipe && About(e.frame, id) then Some(e.frame) else LastAbout(log, pipe, id)
  {
    assert (log + [e])[..|log|] == log;
  }

  /** Either the frame is out, or the engine is down. */
  lemma SendKeeps(s: State, io: Carrier, frame: Frame)
    requires Base(s)
    ensures Base(SendOrClose(s, io, frame, s.link.generation))
    ensures var next := SendOrClose(s, io, frame, s.link.generation);
            && (next.link.pipe.Some? ==> s.link.pipe.Some? && next == Emit(s, Sent(s.link.pipe.value, frame)))
            && (next.link.pipe.None? ==> !next.link.authenticated)
            && next.registry == s.registry && next.link.generation == s.link.generation
  {
    hide HandleClose, Accounted, Registered;
    if s.link.pipe.Some? && !io(|s.log|) {
      CloseKeeps(Emit(s, Closed(s.link.pipe.value)), 1006, s.link.generation);
    }
  }

  /** Only a frame about the subscription itself can change what was last said about it. */
  lemma StaysCarried(s: State, e: Effect, sub: Sub)
    requires Carries(s, sub)
    requires e.Sent? && About(e.frame, sub.id) ==> e.frame == Subscribe(sub.id, sub.path, sub.args)
    ensures Carries(Emit(s, e), sub)
  {
    LastAfter(s.log, e, s.link.pipe.value, sub.id);
  }

  lemma {:induction false} SendEachKeeps(s: State, io: Carrier, subs: seq<Sub>)
    requires Base(s)
    requires forall i, j :: 0 <= i < j < |subs| ==> subs[i].id != subs[j].id
    ensures Base(SendEach(s, io, subs))
    ensures var next := SendEach(s, io, subs);
            && (next.link.pipe.Some? ==> next == s.(log := next.log) && forall i :: 0 <= i < |subs| ==> Carries(next, subs[i]))
            && (next.link.pipe.None? ==> !next.link.authenticated)
            && next.registry == s.registry && next.link.generation == s.link.generation
  {
    hide SendOrClose, Accounted, Registered;
    if subs != [] {
      var init, last := subs[..|subs| - 1], subs[|subs| - 1];
      SendEachKeeps(s, io, init);
      var before, next := SendEach(s, io, init), SendEach(s, io, subs);
      var frame := Subscribe(last.id, last.path, last.args);
      SendKeeps(before, io, frame);
      if next.link.pipe.Some? {
        var e := Sent(before.link.pipe.value, frame);
        LastAfter(before.log, e, before.link.pipe.value, last.id);
        forall i | 0 <= i < |subs|
          ensures Carries(next, subs[i])
        {
          if i < |init| { StaysCarried(before, e, init[i]); }
        }
      }
    }
  }

  lemma {:induction false} DistinctByIndex(subs: seq<Sub>)
    requires DistinctIds(subs)
    ensures forall i, j :: 0 <= i < j < |subs| ==> subs[i].id != subs[j].id
  {
    if subs != [] {
      DistinctByIndex(subs[1..]);
      forall j | 0 < j < |subs|
        ensures subs[0].id != subs[j].id
      {
        assert subs[j] in subs[1..];
        MemberHasId(subs[1..], subs[j]);
      }
      forall i, j | 0 < i < j < |subs|
        ensures subs[i].id != subs[j].id
      {
        assert subs[1..][i - 1].id != subs[1..][j - 1].id;
      }
    }
  }

  lemma SendSubscriptionsKeeps(s: State, io: Carrier)
    requires Base(s)
    ensures Inv(SendSubscriptions(s, io))
    ensures SendSubscriptions(s, io).link.generation == s.link.generation && SendSubscriptions(s, io).registry == s.registry
  {
    DistinctByIndex(s.registry.subs);
    hide SendEach, Linked, Accounted, DistinctIds, Ids;
    SendEachKeeps(s, io, s.registry.subs);
    assert s.link.authenticated ==> s.link.pipe.Some? by { assert Linked(s.link); LinkedPipe(s.link); }
  }

  lemma LinkedPipe(l: Link)
    requires Linked(l)
    ensures l.connected || l.authenticated ==> l.pipe.Some?
  {}

  // ---------------------------------------------------------------------------------------
  // Messages
  // ---------------------------------------------------------------------------------------

  lemma RegistryPut(r: Registry, sub: Sub)
    requires Registered(r) && sub.id in r.handlers && sub.retryableErrors <= MAX_RETRYABLE_SUBSCRIPTION_ERRORS
    ensures Registered(r.(subs := Put(r.subs, sub)))
  {
    PutFacts(r.subs, sub);
  }

  /** A registry that holds `sub` for its id, whatever its retry count, is sound once the id is dropped. */
  lemma DropKeeps(r: Registry, id: string)
    requires Registered(r)
    ensures Registered(DropFrom(r, id))
    ensures forall t :: t in DropFrom(r, id).subs ==> t in r.subs && t.id != id
  {
    RemoveFacts(r.subs, id);
  }

  lemma {:induction false} RemoveAfterPut(subs: seq<Sub>, sub: Sub)
    ensures Remove(Put(subs, sub), sub.id) == Remove(subs, sub.id)
  {
    if subs != [] {
      if subs[0].id == sub.id {
        assert ([sub] + subs[1..])[1..] == subs[1..];
      } else {
        RemoveAfterPut(subs[1..], sub);
        assert ([subs[0]] + Put(subs[1..], sub))[1..] == Put(subs[1..], sub);
      }
    } else {
      assert [sub][1..] == [];
    }
  }

  /** Fewer subscriptions, or more effects about other things, leave the rest carried. */
  lemma CarriedAfter(s: State, next: State, e: Option<Effect>)
    requires AllCarried(s) && next.link.pipe == s.link.pipe
    requires next.log == if e.Some? then s.log + [e.value] else s.log
    requires forall t :: t in next.registry.subs ==>
               (exists u :: u in s.registry.subs && u.id == t.id && u.path == t.path && u.args == t.args)
               && (e.Some? && e.value.Sent? && About(e.value.frame, t.id) ==> e.value.frame == Subscribe(t.id, t.path, t.args))
    ensures AllCarried(next)
  {
    forall t | t in next.registry.subs
      ensures Carries(next, t)
    {
      var u :| u in s.registry.subs && u.id == t.id && u.path == t.path && u.args == t.args;
      assert Carries(s, u) && Carries(s, t);
      if e.Some? { LastAfter(s.log, e.value, s.link.pipe.value, t.id); }
    }
  }

  lemma DropSubscriptionKeeps(s: State, id: string)
    requires Inv(s)
    ensures Inv(DropSubscription(s, id))
  {
    hide Linked, Accounted, Registered;
    DropKeeps(s.registry, id);
    var next := DropSubscription(s, id);
    if s.link.authenticated {
      CarriedAfter(s, next, if id in s.registry.errorHandlers then Some(Failed(id)) else None);
    }
  }

  lemma DropIgnoresCount(s: State, sub: Sub)
    ensures DropSubscription(s.(registry := s.registry.(subs := Put(s.registry.subs, sub))), sub.id) == DropSubscription(s, sub.id)
  {
    RemoveAfterPut(s.registry.subs, sub);
  }

  lemma RetryOrDropKeeps(s: State, io: Carrier, id: string, retryable: bool)
    requires Inv(s)
    ensures Inv(RetryOrDrop(s, io, id, retryable))
  {
    hide Linked, Accounted, Registered, SendOrClose, DropSubscription;
    var found := Find(s.registry.subs, id);
    DropSubscriptionKeeps(s, id);
    if retryable && found.Some? {
      var sub := found.value.(retryableErrors := found.value.retryableErrors + 1);
      var counted := s.(registry := s.registry.(subs := Put(s.registry.subs, sub)));
      if sub.retryableErrors > MAX_RETRYABLE_SUBSCRIPTION_ERRORS {
        DropIgnoresCount(s, sub);
      } else {
        FoundIsRegistered(s.registry, found.value);
        RegistryPut(s.registry, sub);
        ResendKeeps(s, counted, io, found.value, sub);
      }
    }
  }

  lemma FoundIsRegistered(r: Registry, t: Sub)
    requires Registered(r) && t in r.subs
    ensures t.id in r.handlers && forall u :: u in r.subs && u.id == t.id ==> u == t
  {
    MemberHasId(r.subs, t);
    PutFacts(r.subs, t);
    DistinctByIndex(r.subs);
  }

  lemma ResendKeeps(s: State, counted: State, io: Carrier, was: Sub, sub: Sub)
    requires Inv(s) && was in s.registry.subs && sub.id == was.id && sub.path == was.path && sub.args == was.args
    requires counted == s.(registry := s.registry.(subs := Put(s.registry.subs, sub))) && Registered(counted.registry)
    ensures Inv(SendOrClose(counted, io, Subscribe(sub.id, sub.path, sub.args), s.link.generation))
  {
    PutCovers(s.registry, was, sub);
    hide Linked, Accounted, Registered, SendOrClose, Put, AllCarried;
    var frame := Subscribe(sub.id, sub.path, sub.args);
    SendKeeps(counted, io, frame);
    var next := SendOrClose(counted, io, frame, s.link.generation);
    if next.link.authenticated {
      CarriedAfter(s, next, Some(Sent(s.link.pipe.value, frame)));
    }
  }

  lemma PutCovers(r: Registry, was: Sub, sub: Sub)
    requires Registered(r) && was in r.subs && sub.id == was.id && sub.path == was.path && sub.args == was.args
    ensures forall t :: t in Put(r.subs, sub) ==>
              (exists u :: u in r.subs && u.id == t.id && u.path == t.path && u.args == t.args)
              && (t.id == sub.id ==> t == sub)
  {
    PutFacts(r.subs, sub);
  }

  lemma ActionsKeep(c: Calls)
    requires Accounted(c)
    ensures Accounted(RejectActions(c)) && RejectActions(c).pending.Keys <= c.pending.Keys
  {}

  lemma SubscribedKeeps(s: State, id: string)
    requires Inv(s) && Find(s.registry.subs, id).Some?
    ensures Inv(s.(registry := s.registry.(subs := Put(s.registry.subs, Find(s.registry.subs, id).value.(retryableErrors := 0)))))
  {
    var found := Find(s.registry.subs, id).value;
    var sub := found.(retryableErrors := 0);
    FoundIsRegistered(s.registry, found);
    RegistryPut(s.registry, sub);
    PutFacts(s.registry.subs, sub);
    hide Linked, Accounted, Registered;
    if s.link.authenticated {
      CarriedAfter(s, s.(registry := s.registry.(subs := Put(s.registry.subs, sub))), None);
    }
  }

  lemma AuthenticatedKeeps(s: State, io: Carrier)
    requires Base(s) && s.link.pipe.Some?
    ensures Inv(SendSubscriptions(s.(link := ClearAckTimer(s.link.(authenticated := true))), io))
  {
    hide Accounted, Registered, SendSubscriptions;
    SendSubscriptionsKeeps(s.(link := ClearAckTimer(s.link.(authenticated := true))), io);
  }

  lemma CallsOnly(s: State, calls: Calls)
    requires Inv(s) && Accounted(calls) && calls.pending.Keys <= s.calls.pending.Keys
    ensures Inv(s.(calls := calls))
  {
    hide Linked, Accounted, Registered;
    var next := s.(calls := calls);
    assert calls.pending != map[] ==> s.calls.pending != map[];
    if s.link.authenticated {
      CarriedAfter(s, next, None);
    }
  }

  lemma MessageKeeps(before: State, io: Carrier, msg: ServerMessage)
    requires Inv(before) && before.link.pipe.Some?
    ensures Inv(HandleMessage(before, io, msg))
  {
    hide Accounted, Registered, SendSubscriptions, RetryOrDrop, RejectActions, Settle;
    var s := before.(link := before.link.(reconnectAttempt := 0));
    if before.link.authenticated {
      CarriedAfter(before, s, None);
    }
    assert Linked(s.link);
    match msg
    case Authenticated =>
      if !s.link.authenticated { AuthenticatedKeeps(s, io); }
    case Subscribed(id) =>
      if Find(s.registry.subs, id).Some? { SubscribedKeeps(s, id); }
    case Invalidate(id) =>
      if s.link.authenticated { CarriedAfter(s, Emit(s, Notified({id})), Some(Notified({id}))); }
    case Result(call, data) =>
      if call in s.calls.pending {
        SettleKeeps(s.calls, call, Resolved(data));
        SettleShrinks(s.calls, call, Resolved(data));
        CallsOnly(s, Settle(s.calls, call, Resolved(data)));
      }
    case SubscriptionError(subject, retryable) =>
      if subject.Some? { RetryOrDropKeeps(s, io, subject.value, retryable); }
    case CallError(target, error) =>
      if target.Some? {
        if target.value in s.calls.pending {
          SettleKeeps(s.calls, target.value, Rejected(error));
          SettleShrinks(s.calls, target.value, Rejected(error));
          CallsOnly(s, Settle(s.calls, target.value, Rejected(error)));
        }
      } else if error == "invalid message" {
        ActionsKeep(s.calls);
        CallsOnly(s, RejectActions(s.calls));
      }
  }

  lemma SettleShrinks(c: Calls, call: nat, outcome: Outcome)
    ensures Settle(c, call, outcome).pending.Keys <= c.pending.Keys
  {}

  // ---------------------------------------------------------------------------------------
  // Connecting and closing
  // ---------------------------------------------------------------------------------------

  /** A step that only touches the link, with the same pipe. */
  lemma LinkOnly(s: State, link: Link)
    requires Inv(s) && Linked(link) && link.pipe == s.link.pipe
    requires (s.link.connected ==> link.connected) && (link.authenticated ==> s.link.authenticated)
    ensures Inv(s.(link := link))
  {
    hide Linked, Accounted, Registered;
    if link.authenticated {
      CarriedAfter(s, s.(link := link), None);
    }
  }

  lemma FinishKeeps(l: Link, generation: nat)
    requires Linked(l)
    ensures Linked(Finish(l, generation)) && Linked(ScheduleReconnect(l)) && Linked(FinishWithError(l, generation))
  {
    ScheduleKeeps(l);
    EndKeeps(l, generation);
    EndKeeps(ScheduleReconnect(l), generation);
    hide Linked, Finish, ScheduleReconnect;
  }

  lemma ScheduleKeeps(l: Link)
    requires Linked(l)
    ensures Linked(ScheduleReconnect(l))
  {}

  lemma EndKeeps(l: Link, generation: nat)
    requires Linked(l)
    ensures Linked(Finish(l, generation))
  {}

  lemma ConnectKeeps(s: State)
    requires Inv(s)
    ensures Inv(DoConnect(s)) && Inv(DoConnect(s.(link := s.link.(reconnectTimer := false))))
  {
    hide Accounted, Registered, AllCarried;
    var l := s.link;
    LinkOnly(s, l.(reconnectTimer := false));
    assert l.pipe.None? ==> !l.connected;
  }

  lemma TokenKeeps(s: State, generation: nat, token: Option<Option<string>>)
    requires Inv(s) && Happens(s, TokenSettles(generation, token))
    ensures Inv(AfterToken(s, generation, token))
  {
    hide Accounted, Registered, AllCarried;
    FinishKeeps(s.link, generation);
    var next := AfterToken(s, generation, token);
    assert Linked(next.link);
    LinkOnly(s, next.link);
  }

  lemma PipeKeeps(s: State, generation: nat, ok: bool)
    requires Inv(s) && Happens(s, PipeSettles(generation, ok))
    ensures Inv(AfterPipe(s, generation, ok))
  {
    hide Accounted, Registered;
    FinishKeeps(s.link, generation);
    var next := AfterPipe(s, generation, ok);
    assert Linked(next.link);
    if next.link.authenticated {
      CarriedAfter(s, next, if ok then Some(Closed(generation)) else None);
    }
  }

  lemma ReadyKeeps(s: State, io: Carrier, generation: nat, ok: bool)
    requires Inv(s) && Happens(s, ReadySettles(generation, ok))
    ensures Inv(AfterReady(s, io, generation, ok))
  {
    hide Accounted, Registered, HandleClose, SendSubscriptions, StartAuth;
    if !ok {
      if s.link.pipe == Some(generation) {
        CloseKeeps(s, 1006, generation);
        var closed := HandleClose(s, 1006, generation);
        FinishKeeps(closed.link, generation);
      } else {
        FinishKeeps(s.link, generation);
        LinkOnly(s, Finish(s.link, generation));
      }
    } else if Outdated(s.link, generation) || s.link.pipe != Some(generation) {
      FinishKeeps(s.link, generation);
      var next := Emit(s, Closed(generation)).(link := Finish(s.link, generation));
      if next.link.authenticated { CarriedAfter(s, next, Some(Closed(generation))); }
    } else {
      UpKeeps(s, io, generation);
    }
  }

  lemma UpKeeps(s: State, io: Carrier, generation: nat)
    requires Inv(s) && Happens(s, ReadySettles(generation, true)) && s.link.pipe == Some(generation) && generation == s.link.generation
    ensures Inv(AfterReady(s, io, generation, true))
  {
    hide Accounted, Registered, SendSubscriptions, StartAuth;
    var up := s.(link := s.link.(connected := true, authenticated := !s.link.requiresAuth));
    if s.link.requiresAuth {
      StartAuthKeeps(up, io, s.link.runs[generation].token, generation);
      FinishKeeps(StartAuth(up, io, s.link.runs[generation].token, generation).link, generation);
    } else {
      SendSubscriptionsKeeps(up, io);
      var sent := SendSubscriptions(up, io);
      FinishKeeps(sent.link, generation);
      LinkOnly(sent, Finish(sent.link, generation));
    }
  }

  lemma StartAuthKeeps(s: State, io: Carrier, token: Option<string>, generation: nat)
    requires Base(s) && !s.link.authenticated && s.link.pipe == Some(generation) && generation == s.link.generation
    ensures Base(StartAuth(s, io, token, generation)) && !StartAuth(s, io, token, generation).link.authenticated
  {
    hide Accounted, Registered, SendOrClose;
    SendKeeps(s, io, Auth(token));
    var sent := SendOrClose(s, io, Auth(token), generation);
    KnownPipes(s, io, Auth(token), generation);
    assert Linked(sent.link.(ackTimer := Some(generation), timers := sent.link.timers + {generation}));
  }

  /** What losing the pipe leaves alone, and what it clears. */
  lemma Lost(l: Link)
    ensures var lost := Lose(l);
            && lost.generation == l.generation && lost.runs == l.runs && lost.openedPipes == l.openedPipes
            && lost.pipe.None? && !lost.connected && !lost.authenticated
            && lost.ackTimer.None? && lost.timers == Without(l.timers, l.ackTimer)
  {}

  lemma KnownPipes(s: State, io: Carrier, frame: Frame, generation: nat)
    ensures SendOrClose(s, io, frame, generation).link.openedPipes == s.link.openedPipes
    ensures SendOrClose(s, io, frame, generation).link.authenticated ==> s.link.authenticated
  {
    hide RejectAllPending, Lose;
    Lost(s.link);
  }

  lemma DisconnectKeeps(s: State)
    requires Inv(s)
    ensures Inv(DoDisconnect(s))
  {
    hide Accounted, Registered, RejectAllPending;
    RejectAllKeeps(s.calls, "disconnected");
  }

  lemma AckTimeoutKeeps(s: State, generation: nat)
    requires Inv(s) && generation in s.link.timers
    ensures Inv(FailAuthAck(s.(link := TimerGone(s.link, generation)), generation))
  {
    hide Accounted, Registered, HandleClose;
    var gone := s.(link := TimerGone(s.link, generation));
    LinkOnly(s, gone.link);
    if generation == gone.link.generation && gone.link.pipe.Some? {
      var emitted := Emit(gone, Closed(gone.link.pipe.value));
      CloseKeeps(emitted, 4002, generation);
      PipeIsForgotten(emitted, 4002, generation);
    }
  }

  /** A close of the current generation drops whatever pipe is held. */
  lemma PipeIsForgotten(s: State, code: nat, generation: nat)
    requires generation == s.link.generation
    ensures HandleClose(s.(link := DetachPipe(s.link).(pipe := None)), code, generation) == HandleClose(s, code, generation)
  {
    hide RejectAllPending;
    assert Lose(DetachPipe(s.link).(pipe := None)) == Lose(s.link);
  }

  lemma RejectionKeeps(s: State, pipe: nat)
    requires Inv(s) && pipe in s.link.openedPipes
    ensures Inv(HandleClose(Emit(s, Closed(pipe)), 1006, pipe))
  {
    hide Accounted, Registered, HandleClose;
    CloseKeeps(Emit(s, Closed(pipe)), 1006, pipe);
    if pipe != s.link.generation && s.link.authenticated {
      CarriedAfter(s, Emit(s, Closed(pipe)), Some(Closed(pipe)));
    }
  }

  // ---------------------------------------------------------------------------------------
  // Public calls
  // ---------------------------------------------------------------------------------------

  lemma SubscribeRegisters(r: Registry, sub: Sub, hasOnError: bool)
    requires Registered(r) && sub.retryableErrors == 0
    ensures Registered(Registry(r.handlers + {sub.id}, if hasOnError then r.errorHandlers + {sub.id} else r.errorHandlers - {sub.id}, Put(r.subs, sub)))
    ensures forall t :: t in Put(r.subs, sub) ==> t == sub || (t in r.subs && t.id != sub.id)
  {
    PutFacts(r.subs, sub);
  }

  lemma SubscribeKeeps(s: State, io: Carrier, id: string, path: string, args: string, hasOnError: bool)
    requires Inv(s)
    ensures Inv(DoSubscribe(s, io, id, path, args, hasOnError))
  {
    hide Accounted, Registered, SendOrClose, Put;
    var sub, frame := Sub(id, path, args, 0), Subscribe(id, path, args);
    SubscribeRegisters(s.registry, sub, hasOnError);
    var added := s.(registry := Registry(
      s.registry.handlers + {id},
      if hasOnError then s.registry.errorHandlers + {id} else s.registry.errorHandlers - {id},
      Put(s.registry.subs, sub)));
    SendKeeps(added, io, frame);
    var next := SendOrClose(added, io, frame, s.link.generation);
    if s.link.authenticated && next.link.authenticated {
      NewlyCarried(s, next, sub, Sent(s.link.pipe.value, frame));
    }
  }

  lemma NewlyCarried(s: State, next: State, sub: Sub, e: Effect)
    requires AllCarried(s) && s.link.pipe.Some? && next.link.pipe == s.link.pipe && next.log == s.log + [e]
    requires e == Sent(s.link.pipe.value, Subscribe(sub.id, sub.path, sub.args))
    requires forall t :: t in next.registry.subs ==> t == sub || (t in s.registry.subs && t.id != sub.id)
    ensures AllCarried(next)
  {
    forall t | t in next.registry.subs
      ensures Carries(next, t)
    {
      LastAfter(s.log, e, s.link.pipe.value, t.id);
      assert t != sub ==> Carries(s, t);
    }
  }

  lemma UnsubscribeKeeps(s: State, io: Carrier, id: string)
    requires Inv(s)
    ensures Inv(DoUnsubscribe(s, io, id))
  {
    hide Accounted, Registered, SendOrClose, DropFrom;
    DropKeeps(s.registry, id);
    var removed, frame := s.(registry := DropFrom(s.registry, id)), Unsubscribe(id);
    SendKeeps(removed, io, frame);
    var next := SendOrClose(removed, io, frame, s.link.generation);
    if s.link.authenticated && next.link.authenticated {
      CarriedAfter(s, next, Some(Sent(s.link.pipe.value, frame)));
    }
  }

  lemma IssueKeeps(c: Calls, kind: CallType)
    requires Accounted(c)
    ensures Accounted(Issue(c, kind)) && Issue(c, kind).callSeq in Issue(c, kind).pending
    ensures c.callSeq + 1 !in c.pending && c.settled[c.callSeq + 1] == 0
  {}

  lemma InvokeKeeps(s: State, io: Carrier, kind: CallType, path: string, args: string)
    requires Inv(s)
    ensures Inv(DoInvoke(s, io, kind, path, args))
  {
    hide Accounted, Registered, Settle;
    var next := DoInvoke(s, io, kind, path, args);
    if CanInvoke(s.link) {
      IssueKeeps(s.calls, kind);
      var issued := Issue(s.calls, kind);
      var e := Sent(s.link.pipe.value, Frame.Invoke(kind, issued.callSeq, path, args));
      SettleKeeps(issued, issued.callSeq, Rejected("send failed"));
      if s.link.authenticated {
        CarriedAfter(s, next, if io(|s.log|) then Some(e) else None);
      }
    }
  }

  lemma StepKeepsInv(s: State, io: Carrier, e: Event)
    requires Inv(s) && Happens(s, e)
    ensures Inv(Next(s, io, e))
  {
    hide Base, AllCarried, DoConnect, DoDisconnect, DoSubscribe, DoUnsubscribe, DoInvoke, HandleMessage, HandleClose, FailAuthAck, AfterToken, AfterPipe, AfterReady;
    match e
    case Connect => ConnectKeeps(s);
    case Disconnect => DisconnectKeeps(s);
    case AddSub(id, path, args, hasOnError) => SubscribeKeeps(s, io, id, path, args, hasOnError);
    case RemoveSub(id) => UnsubscribeKeeps(s, io, id);
    case Request(kind, path, args) => InvokeKeeps(s, io, kind, path, args);
    case Deliver(pipe, msg) =>
      ListeningIsHeld(s, pipe);
      MessageKeeps(s, io, msg);
    case CloseEvent(pipe, code) => CloseEventKeeps(s, code, pipe);
    case SendRejected(pipe) => RejectionKeeps(s, pipe);
    case ReconnectFires => ConnectKeeps(s);
    case AckTimeout(generation) => AckTimeoutKeeps(s, generation);
    case TokenSettles(generation, token) => TokenKeeps(s, generation, token);
    case PipeSettles(generation, ok) => PipeKeeps(s, generation, ok);
    case ReadySettles(generation, ok) => ReadyKeeps(s, io, generation, ok);
  }

  lemma ListeningIsHeld(s: State, pipe: nat)
    requires Base(s)
    ensures pipe in s.link.listening <==> s.link.pipe == Some(pipe)
  {
    hide Accounted, Registered;
  }

  lemma CloseEventKeeps(s: State, code: nat, pipe: nat)
    requires Inv(s) && pipe in s.link.openedPipes
    ensures Inv(HandleClose(s, code, pipe))
  {
    hide HandleClose, Base, AllCarried;
    CloseKeeps(s, code, pipe);
  }

  // ---------------------------------------------------------------------------------------
  // Runs
  // ---------------------------------------------------------------------------------------

  ghost predicate Runs(s: State, io: Carrier, events: seq<Event>)
    decreases |events|
  {
    events != [] ==> Happens(s, events[0]) && Runs(Next(s, io, events[0]), io, events[1..])
  }

  ghost function Take(s: State, io: Carrier, events: seq<Event>): State
    requires Runs(s, io, events)
    decreases |events|
  {
    if events == [] then s else Take(Next(s, io, events[0]), io, events[1..])
  }

  ghost predicate Reachable(s: State) {
    exists requiresAuth, io, events :: Runs(Created(requiresAuth), io, events) && s == Take(Created(requiresAuth), io, events)
  }

  lemma {:induction false} RunKeepsInv(s: State, io: Carrier, events: seq<Event>)
    requires Inv(s) && Runs(s, io, events)
    ensures Inv(Take(s, io, events))
    decreases |events|
  {
    hide Inv, Happens, Next;
    if events != [] {
      StepKeepsInv(s, io, events[0]);
      RunKeepsInv(Next(s, io, events[0]), io, events[1..]);
    }
  }

  lemma CreatedIsInv(requiresAuth: bool)
    ensures Inv(Created(requiresAuth))
  {}

  lemma ReachableKeepsInv(s: State)
    requires Reachable(s)
    ensures Inv(s)
  {
    hide Inv, Happens, Next;
    var requiresAuth, io, events :| Runs(Created(requiresAuth), io, events) && s == Take(Created(requiresAuth), io, events);
    CreatedIsInv(requiresAuth);
    RunKeepsInv(Created(requiresAuth), io, events);
  }

  /** Each issued id is either pending and unsettled, or settled exactly once; no other id is known. */
  lemma EveryCallSettlesOnce(s: State, id: nat)
    requires Reachable(s)
    ensures 1 <= id <= s.calls.callSeq ==> (id in s.calls.pending <==> s.calls.settled[id] == 0) && s.calls.settled[id] <= 1
    ensures !(1 <= id <= s.calls.callSeq) ==> id !in s.calls.pending && s.calls.settled[id] == 0
    ensures id in s.calls.outcomes <==> s.calls.settled[id] == 1
  {
    ReachableKeepsInv(s);
  }

  /** A call is pending only while the pipe of the current generation is held. */
  lemma PendingCallsHaveAPipe(s: State)
    requires Reachable(s) && s.calls.pending != map[]
    ensures s.link.connected && s.link.pipe == Some(s.link.generation)
  {
    ReachableKeepsInv(s);
  }

  /** The message handler is on exactly the held pipe: none is left behind on a pipe that was dropped. */
  lemma HandlerIsOnTheHeldPipe(s: State, pipe: nat, msg: ServerMessage)
    requires Reachable(s)
    ensures Happens(s, Deliver(pipe, msg)) <==> s.link.pipe == Some(pipe)
    ensures s.link.detach == s.link.pipe
  {
    ReachableKeepsInv(s);
  }

  lemma NothingPendingSettles(s: State, code: nat, generation: nat)
    requires s.calls.pending == map[]
    ensures HandleClose(s, code, generation).calls.settled == s.calls.settled
  {
    hide Lose, ScheduleReconnect;
    assert s.calls.pending.Keys == {};
  }

  /** A close, a failed send or a result from an older pipe settles nothing and moves nothing. */
  lemma OldPipesAreInert(s: State, io: Carrier, pipe: nat, code: nat, msg: ServerMessage)
    requires Reachable(s) && s.link.pipe != Some(pipe)
    ensures !Happens(s, Deliver(pipe, msg))
    ensures Happens(s, CloseEvent(pipe, code)) && pipe != s.link.generation ==> Next(s, io, CloseEvent(pipe, code)) == s
    ensures Happens(s, SendRejected(pipe)) && pipe != s.link.generation ==> Next(s, io, SendRejected(pipe)) == Emit(s, Closed(pipe))
    ensures Happens(s, CloseEvent(pipe, code)) ==> Next(s, io, CloseEvent(pipe, code)).calls.settled == s.calls.settled
    ensures Happens(s, SendRejected(pipe)) ==> Next(s, io, SendRejected(pipe)).calls.settled == s.calls.settled
  {
    hide Lose, ScheduleReconnect, RejectAllPending, Accounted, Registered, AllCarried, Reachable;
    HandlerIsOnTheHeldPipe(s, pipe, msg);
    ReachableKeepsInv(s);
    if pipe == s.link.generation {
      NothingPendingSettles(s, code, pipe);
      NothingPendingSettles(Emit(s, Closed(pipe)), 1006, pipe);
    }
  }

  /** Whenever authenticated, the last frame about each subscription on the held pipe is its current one. */
  lemma AuthenticatedPipeCarriesSubscriptions(s: State, sub: Sub)
    requires Reachable(s) && s.link.authenticated && sub in s.registry.subs
    ensures s.link.pipe == Some(s.link.generation)
    ensures LastAbout(s.log, s.link.generation, sub.id) == Some(Subscribe(sub.id, sub.path, sub.args))
  {
    ReachableKeepsInv(s);
    assert Carries(s, sub);
  }

  /** Handlers and subscriptions name the same ids, and a resting retry count is within the cap. */
  lemma HandlersMatchSubscriptions(s: State)
    requires Reachable(s)
    ensures s.registry.handlers == Ids(s.registry.subs) && DistinctIds(s.registry.subs) && s.registry.errorHandlers <= s.registry.handlers
    ensures forall t :: t in s.registry.subs ==> t.retryableErrors <= MAX_RETRYABLE_SUBSCRIPTION_ERRORS
  {
    ReachableKeepsInv(s);
  }

  // ---------------------------------------------------------------------------------------
  // A refused credential
  // ---------------------------------------------------------------------------------------

  /** Nothing is opened or sent between two logs. */
  ghost predicate QuietSince(before: seq<Effect>, after: seq<Effect>) {
    before <= after && forall i :: |before| <= i < |after| ==> !after[i].Opened? && !after[i].Sent?
  }

  lemma RefusedStaysQuiet(s: State, io: Carrier, e: Event)
    requires Inv(s) && Happens(s, e) && s.link.authFailed && !e.Disconnect?
    ensures Next(s, io, e).link.authFailed && QuietSince(s.log, Next(s, io, e).log)
  {
    hide Accounted, Registered, AllCarried, RejectAllPending;
    if e.Deliver? {
      assert false;
    }
  }

  /** After a 4001 close no pipe opens and nothing is sent, whatever happens, until disconnect. */
  lemma {:induction false} RefusedUntilDisconnect(s: State, io: Carrier, events: seq<Event>)
    requires Inv(s) && Runs(s, io, events) && s.link.authFailed
    requires forall e :: e in events ==> !e.Disconnect?
    ensures Take(s, io, events).link.authFailed && Take(s, io, events).link.pipe.None?
    ensures QuietSince(s.log, Take(s, io, events).log)
    decreases |events|
  {
    hide Base, AllCarried, Happens, Next;
    if events != [] {
      assert events[0] in events;
      RefusedStaysQuiet(s, io, events[0]);
      StepKeepsInv(s, io, events[0]);
      RefusedUntilDisconnect(Next(s, io, events[0]), io, events[1..]);
    } else {
      RefusedHasNoPipe(s);
    }
  }

  lemma RefusedHasNoPipe(s: State)
    requires Inv(s) && s.link.authFailed
    ensures s.link.pipe.None?
  {}

  /** The close that refuses tells every handler, so that each can refetch. */
  lemma RefusalIsReported(s: State, io: Carrier, pipe: nat)
    requires Reachable(s) && s.link.pipe == Some(pipe)
    ensures Happens(s, CloseEvent(pipe, 4001))
    ensures var next := Next(s, io, CloseEvent(pipe, 4001));
            next.link.authFailed && next.log == s.log + [Notified(Ids(s.registry.subs))]
  {
    ReachableKeepsInv(s);
    hide RejectAllPending;
  }

  // ---------------------------------------------------------------------------------------
  // The acknowledgement timer
  // ---------------------------------------------------------------------------------------

  /** The only live timer is the one the engine can still clear, and it waits for an acknowledgement. */
  ghost predicate Timed(l: Link) {
    && l.timers == (if l.ackTimer.Some? then {l.ackTimer.value} else {})
    && (l.pipe.None? || l.authenticated || l.generation in l.runs ==> l.ackTimer.None?)
  }

  lemma TimerClose(s: State, code: nat, generation: nat)
    requires Timed(s.link)
    ensures Timed(HandleClose(s, code, generation).link)
  {
    hide RejectAllPending, Lose;
    Lost(s.link);
  }

  lemma TimerSend(s: State, io: Carrier, frame: Frame, generation: nat)
    requires Timed(s.link)
    ensures Timed(SendOrClose(s, io, frame, generation).link)
  {
    hide HandleClose;
    if s.link.pipe.Some? {
      TimerClose(Emit(s, Closed(s.link.pipe.value)), 1006, generation);
    }
  }

  lemma {:induction false} TimerSendEach(s: State, io: Carrier, subs: seq<Sub>)
    requires Timed(s.link)
    ensures Timed(SendEach(s, io, subs).link)
  {
    hide SendOrClose, Timed;
    if subs != [] {
      var init, last := subs[..|subs| - 1], subs[|subs| - 1];
      TimerSendEach(s, io, init);
      TimerSend(SendEach(s, io, init), io, Subscribe(last.id, last.path, last.args), s.link.generation);
    }
  }

  lemma TimerRetry(s: State, io: Carrier, id: string, retryable: bool)
    requires Timed(s.link)
    ensures Timed(RetryOrDrop(s, io, id, retryable).link)
  {
    hide SendOrClose, Timed, Put, DropFrom;
    var found := Find(s.registry.subs, id);
    if found.Some? {
      var sub := found.value.(retryableErrors := found.value.retryableErrors + 1);
      TimerSend(s.(registry := s.registry.(subs := Put(s.registry.subs, sub))), io, Subscribe(id, sub.path, sub.args), s.link.generation);
    }
  }

  lemma TimerMessage(s: State, io: Carrier, msg: ServerMessage)
    requires Timed(s.link) && s.link.pipe.Some?
    ensures Timed(HandleMessage(s, io, msg).link)
  {
    hide RejectAllPending, RejectActions, Settle, SendEach, DropFrom, Put, Find, RetryOrDrop;
    var now := s.(link := s.link.(reconnectAttempt := 0));
    match msg
    case Authenticated =>
      TimerSendEach(now.(link := ClearAckTimer(now.link.(authenticated := true))), io, s.registry.subs);
    case SubscriptionError(subject, retryable) =>
      if subject.Some? { TimerRetry(now, io, subject.value, retryable); }
    case _ =>
  }

  /** The carrier throws on the auth frame this step sends. */
  predicate RefusesAuth(s: State, io: Carrier, e: Event) {
    && e.ReadySettles? && e.ok && s.link.requiresAuth
    && !Outdated(s.link, e.generation) && s.link.pipe == Some(e.generation)
    && !io(|s.log|)
  }

  lemma TimerReady(s: State, io: Carrier, generation: nat, ok: bool)
    requires Inv(s) && Happens(s, ReadySettles(generation, ok)) && Timed(s.link)
    ensures Timed(AfterReady(s, io, generation, ok).link) <==> !RefusesAuth(s, io, ReadySettles(generation, ok))
  {
    hide Accounted, Registered, AllCarried, HandleClose, SendEach;
    if !ok {
      TimerClose(s, 1006, generation);
      ClosedKnows(s, 1006, generation);
    } else if !Outdated(s.link, generation) && s.link.pipe == Some(generation) {
      if s.link.requiresAuth {
        TimerAuth(s, io, s.link.runs[generation].token, generation);
      } else {
        TimerSendEach(s.(link := s.link.(connected := true, authenticated := true)), io, s.registry.subs);
      }
    }
  }

  lemma ClosedKnows(s: State, code: nat, generation: nat)
    ensures HandleClose(s, code, generation).link.generation == s.link.generation
    ensures HandleClose(s, code, generation).link.runs == s.link.runs
    ensures generation == s.link.generation ==> HandleClose(s, code, generation).link.pipe.None? && HandleClose(s, code, generation).link.ackTimer.None?
    ensures generation == s.link.generation ==> HandleClose(s, code, generation).link.timers == Without(s.link.timers, s.link.ackTimer)
  {
    hide RejectAllPending, Lose;
    Lost(s.link);
  }

  lemma TimerAuth(s: State, io: Carrier, token: Option<string>, generation: nat)
    requires Timed(s.link) && s.link.pipe == Some(generation) && generation == s.link.generation && generation in s.link.runs
    ensures var up := s.(link := s.link.(connected := true, authenticated := false));
            Timed(Finish(StartAuth(up, io, token, generation).link, generation)) <==> io(|s.log|)
  {
    hide HandleClose;
    var up := s.(link := s.link.(connected := true, authenticated := false));
    ClosedKnows(Emit(up, Closed(generation)), 1006, generation);
  }

  /** A step breaks the timer discipline exactly when the carrier throws on an auth frame. */
  lemma TimersBreakIffAuthRefused(s: State, io: Carrier, e: Event)
    requires Inv(s) && Happens(s, e) && Timed(s.link)
    ensures Timed(Next(s, io, e).link) <==> !RefusesAuth(s, io, e)
  {
    hide Accounted, Registered, AllCarried, RejectAllPending, HandleMessage, AfterReady, DropFrom, Put, Settle, Issue;
    if e.Deliver? {
      TimerMessage(s, io, e.msg);
    } else if e.ReadySettles? {
      TimerReady(s, io, e.generation, e.ok);
    } else {
      TimerOther(s, io, e);
    }
  }

  lemma TimerDisconnect(s: State)
    requires Linked(s.link) && Timed(s.link)
    ensures Timed(DoDisconnect(s).link)
  {
    hide RejectAllPending;
  }

  lemma TimerConnect(s: State)
    requires Linked(s.link) && Timed(s.link)
    ensures Timed(DoConnect(s).link) && Timed(DoConnect(s.(link := s.link.(reconnectTimer := false))).link)
  {}

  lemma TimerToken(s: State, generation: nat, token: Option<Option<string>>)
    requires Linked(s.link) && Timed(s.link) && Happens(s, TokenSettles(generation, token))
    ensures Timed(AfterToken(s, generation, token).link)
  {}

  lemma TimerPipe(s: State, generation: nat, ok: bool)
    requires Linked(s.link) && Timed(s.link) && Happens(s, PipeSettles(generation, ok))
    ensures Timed(AfterPipe(s, generation, ok).link)
  {}

  lemma TimerOther(s: State, io: Carrier, e: Event)
    requires Inv(s) && Happens(s, e) && !e.Deliver? && !e.ReadySettles? && Timed(s.link)
    ensures Timed(Next(s, io, e).link)
  {
    hide Accounted, Registered, AllCarried, RejectAllPending, HandleMessage, AfterReady, DropFrom, Put, Settle, Issue, HandleClose, SendOrClose,
      DoDisconnect, DoConnect, AfterToken, AfterPipe, Timed;
    match e
    case CloseEvent(pipe, code) => TimerClose(s, code, pipe);
    case SendRejected(pipe) => TimerClose(Emit(s, Closed(pipe)), 1006, pipe);
    case AckTimeout(generation) => TimerTimeout(s, generation);
    case AddSub(id, path, args, hasOnError) =>
      TimerSubscribe(s, io, id, path, args, hasOnError);
    case RemoveSub(id) =>
      TimerSend(s.(registry := DropFrom(s.registry, id)), io, Unsubscribe(id), s.link.generation);
    case Disconnect => TimerDisconnect(s);
    case Connect => TimerConnect(s);
    case ReconnectFires => TimerConnect(s);
    case TokenSettles(generation, token) => TimerToken(s, generation, token);
    case PipeSettles(generation, ok) => TimerPipe(s, generation, ok);
    case Request(_, _, _) =>
  }

  lemma TimerSubscribe(s: State, io: Carrier, id: string, path: string, args: string, hasOnError: bool)
    requires Timed(s.link)
    ensures Timed(DoSubscribe(s, io, id, path, args, hasOnError).link)
  {
    hide SendOrClose, Put, Timed;
    var r := s.registry;
    TimerSend(s.(registry := Registry(r.handlers + {id}, if hasOnError then r.errorHandlers + {id} else r.errorHandlers - {id},
                                      Put(r.subs, Sub(id, path, args, 0)))),
              io, Subscribe(id, path, args), s.link.generation);
  }

  lemma TimerTimeout(s: State, generation: nat)
    requires Timed(s.link) && generation in s.link.timers
    ensures Timed(FailAuthAck(s.(link := TimerGone(s.link, generation)), generation).link)
  {
    hide RejectAllPending;
  }

  /** No auth frame of the run is refused by the carrier. */
  ghost predicate AuthFramesAccepted(s: State, io: Carrier, events: seq<Event>)
    requires Runs(s, io, events)
    decreases |events|
  {
    events != [] ==> !RefusesAuth(s, io, events[0]) && AuthFramesAccepted(Next(s, io, events[0]), io, events[1..])
  }

  lemma {:induction false} RunKeepsTimed(s: State, io: Carrier, events: seq<Event>)
    requires Inv(s) && Timed(s.link) && Runs(s, io, events) && AuthFramesAccepted(s, io, events)
    ensures Timed(Take(s, io, events).link)
    decreases |events|
  {
    hide Inv, Happens, Next, Timed, RefusesAuth;
    if events != [] {
      StepKeepsInv(s, io, events[0]);
      TimersBreakIffAuthRefused(s, io, events[0]);
      RunKeepsTimed(Next(s, io, events[0]), io, events[1..]);
    }
  }

  /** In a run whose auth frames all go out, no acknowledgement timer is left to drop an authenticated pipe. */
  lemma NoTimerOutlivesAuthentication(requiresAuth: bool, io: Carrier, events: seq<Event>)
    requires Runs(Created(requiresAuth), io, events) && AuthFramesAccepted(Created(requiresAuth), io, events)
    ensures Take(Created(requiresAuth), io, events).link.authenticated ==> Take(Created(requiresAuth), io, events).link.timers == {}
  {
    hide Inv, Happens, Next, RefusesAuth;
    CreatedIsInv(requiresAuth);
    RunKeepsTimed(Created(requiresAuth), io, events);
  }

  /** After an attempt whose auth frame the carrier refused: the pipe is gone, its timer is not. */
  function Refused(): State {
    State(Link(true, None, false, false, false, false, 1, true, 1, Some(1), {1}, map[], {1}, {}, None),
          Registry({}, {}, []), Calls(map[], 0, multiset{}, map[]), [Opened(1), Closed(1)])
  }

  /** A second attempt waits for its acknowledgement. */
  function Waiting(): State {
    State(Link(true, Some(2), true, false, false, false, 2, false, 1, Some(2), {1, 2}, map[], {1, 2}, {2}, Some(2)),
          Registry({}, {}, []), Calls(map[], 0, multiset{}, map[]), [Opened(1), Closed(1), Opened(2), Sent(2, Auth(None))])
  }

  ghost predicate Reaches(s: State, io: Carrier, events: seq<Event>, end: State) {
    Runs(s, io, events) && Take(s, io, events) == end
  }

  lemma Stepped(s: State, io: Carrier, e: Event, rest: seq<Event>, end: State)
    requires Happens(s, e) && Reaches(Next(s, io, e), io, rest, end)
    ensures Reaches(s, io, [e] + rest, end)
  {
    assert ([e] + rest)[1..] == rest;
  }

  /** Four steps in a row. */
  lemma FourSteps(a: State, io: Carrier, e: Event, f: Event, g: Event, h: Event)
    requires Happens(a, e)
    requires var b := Next(a, io, e);
             Happens(b, f) && var c := Next(b, io, f);
             Happens(c, g) && var d := Next(c, io, g);
             Happens(d, h)
    ensures Reaches(a, io, [e, f, g, h], Next(Next(Next(Next(a, io, e), io, f), io, g), io, h))
  {
    hide Happens, Next;
    var b := Next(a, io, e);
    var c := Next(b, io, f);
    var d := Next(c, io, g);
    var end := Next(d, io, h);
    Stepped(d, io, h, [], end);
    Stepped(c, io, g, [h], end);
    assert [g] + [h] == [g, h];
    Stepped(b, io, f, [g, h], end);
    assert [f] + [g, h] == [f, g, h];
    Stepped(a, io, e, [f, g, h], end);
    assert [e] + [f, g, h] == [e, f, g, h];
  }

  lemma FirstAttempt(io: Carrier)
    requires forall n: nat :: io(n) <==> n != 1
    ensures Reaches(Created(true), io, [Connect, TokenSettles(1, Some(None)), PipeSettles(1, true), ReadySettles(1, true)], Refused())
  {
    hide Reaches, Runs, Take;
    FourSteps(Created(true), io, Connect, TokenSettles(1, Some(None)), PipeSettles(1, true), ReadySettles(1, true));
    var held := Next(Next(Next(Created(true), io, Connect), io, TokenSettles(1, Some(None))), io, PipeSettles(1, true));
    assert Next(held, io, ReadySettles(1, true)) == Refused();
  }

  lemma SecondAttempt(io: Carrier)
    requires forall n: nat :: io(n) <==> n != 1
    ensures Reaches(Refused(), io, [ReconnectFires, TokenSettles(2, Some(None)), PipeSettles(2, true), ReadySettles(2, true)], Waiting())
  {
    hide Reaches, Runs, Take;
    FourSteps(Refused(), io, ReconnectFires, TokenSettles(2, Some(None)), PipeSettles(2, true), ReadySettles(2, true));
    var held := Next(Next(Next(Refused(), io, ReconnectFires), io, TokenSettles(2, Some(None))), io, PipeSettles(2, true));
    assert Next(held, io, ReadySettles(2, true)) == Waiting();
  }

  lemma {:induction false} ReachesThrough(a: State, io: Carrier, first: seq<Event>, b: State, second: seq<Event>, c: State)
    requires Reaches(a, io, first, b) && Reaches(b, io, second, c)
    ensures Reaches(a, io, first + second, c)
    decreases |first|
  {
    hide Happens, Next;
    if first == [] {
      assert first + second == second;
    } else {
      ReachesThrough(Next(a, io, first[0]), io, first[1..], b, second, c);
      assert (first + second)[1..] == first[1..] + second;
    }
  }

  lemma WaitingIsReachable(io: Carrier)
    requires forall n: nat :: io(n) <==> n != 1
    ensures Reachable(Waiting())
  {
    FirstAttempt(io);
    SecondAttempt(io);
    hide Next, Happens;
    var first := [Connect, TokenSettles(1, Some(None)), PipeSettles(1, true), ReadySettles(1, true)];
    var second := [ReconnectFires, TokenSettles(2, Some(None)), PipeSettles(2, true), ReadySettles(2, true)];
    ReachesThrough(Created(true), io, first, Refused(), second, Waiting());
    assert Runs(Created(true), io, first + second) && Waiting() == Take(Created(true), io, first + second);
  }

  /**
   * Not so otherwise: when the carrier refuses an auth frame, that attempt's timer stays behind and
   * can take away the handle of the next one, whose own timer then drops the authenticated pipe.
   */
  lemma StaleTimerDropsAuthenticatedPipe(io: Carrier)
    requires forall n: nat :: io(n) <==> n != 1
    ensures var s := Next(Next(Waiting(), io, AckTimeout(1)), io, Deliver(2, Authenticated));
            && Reachable(Waiting()) && s.link.authenticated
            && Happens(s, AckTimeout(2)) && !Next(s, io, AckTimeout(2)).link.authenticated
  {
    WaitingIsReachable(io);
    hide Reachable;
  }
}
