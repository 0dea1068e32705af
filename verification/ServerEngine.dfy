/**
 * Subscribe attempts of the server engine (packages/server/src/engine/engine.ts, `attachEngine`)
 * over a subscription store that the connections share. Each `await` splits an attempt; its
 * token decides whether the rest of it still counts.
 */
module ServerEngine {
  import opened Common
  import opened SubscriptionStore

  /** An attempt waiting for its context, or for its query. */
  datatype Tail = Tail(id: string, path: string, args: string, calling: bool)

  datatype Reply = Subscribed(attempt: nat, id: string) | Refused(attempt: nat, id: string, retryable: bool)

  /** What the client and the transport did to a connection, for stating which attempt is the newest. */
  datatype Action = Started(attempt: nat, id: string) | Cancelled(id: string) | TornDown

  datatype Connection = Connection(
    closed: bool,
    mySubIds: set<string>,
    pending: map<string, nat>,
    nextAttempt: nat,
    tails: map<nat, Tail>,
    out: seq<Reply>,
    history: seq<Action>)

  datatype Settled<T> = Done(value: T) | Threw(permanent: bool)

  function Opened(): Connection {
    Connection(false, {}, map[], 0, map[], [], [])
  }

  datatype Side = Side(store: Store, c: Connection)

  /** The attempt that was started last for an id and not cancelled since. */
  function Newest(history: seq<Action>, id: string): Option<nat> {
    if history == [] then None
    else
      match history[|history| - 1]
      case Started(attempt, started) => if started == id then Some(attempt) else Newest(history[..|history| - 1], id)
      case Cancelled(cancelled) => if cancelled == id then None else Newest(history[..|history| - 1], id)
      case TornDown => None
  }

  // ---------------------------------------------------------------------------------------
  // Steps of one connection
  // ---------------------------------------------------------------------------------------

  function ClearOwnership(s: Side, id: string): Side {
    if id in s.c.mySubIds then
      Side(s.store.(entries := s.store.entries - {id}), s.c.(mySubIds := s.c.mySubIds - {id}))
    else s
  }

  predicate IsCurrent(c: Connection, id: string, attempt: nat) {
    id in c.pending && c.pending[id] == attempt
  }

  function Finish(c: Connection, id: string, attempt: nat): Connection {
    if IsCurrent(c, id, attempt) then c.(pending := c.pending - {id}) else c
  }

  function Start(s: Side, id: string): Side {
    var attempt := s.c.nextAttempt + 1;
    ClearOwnership(s.(c := s.c.(nextAttempt := attempt, pending := s.c.pending[id := attempt],
                                history := s.c.history + [Started(attempt, id)])), id)
  }

  function DoSubscribe(s: Side, id: string, path: string, args: string, known: bool): Side {
    if s.c.closed then s
    else
      var started := Start(s, id);
      var attempt := started.c.nextAttempt;
      if known then started.(c := started.c.(tails := started.c.tails[attempt := Tail(id, path, args, false)]))
      else started.(c := Refuse(started.c, id, attempt, false))
  }

  function Refuse(c: Connection, id: string, attempt: nat, retryable: bool): Connection {
    var finished := Finish(c, id, attempt);
    finished.(out := finished.out + [Refused(attempt, id, retryable)])
  }

  function EndTail(c: Connection, attempt: nat): Connection {
    c.(tails := c.tails - {attempt})
  }

  function AfterContext(s: Side, attempt: nat, outcome: Settled<()>): Side
    requires attempt in s.c.tails
  {
    var t := s.c.tails[attempt];
    if !IsCurrent(s.c, t.id, attempt) || (outcome.Done? && s.c.closed) then s.(c := EndTail(s.c, attempt))
    else
      match outcome
      case Threw(permanent) => s.(c := EndTail(Refuse(s.c, t.id, attempt, !permanent), attempt))
      case Done(_) => s.(c := s.c.(tails := s.c.tails[attempt := t.(calling := true)]))
  }

  function AfterQuery(s: Side, who: nat, attempt: nat, outcome: Settled<set<string>>): Side
    requires attempt in s.c.tails
  {
    var t := s.c.tails[attempt];
    if !IsCurrent(s.c, t.id, attempt) || (outcome.Done? && s.c.closed) then s.(c := EndTail(s.c, attempt))
    else
      match outcome
      case Threw(permanent) => s.(c := EndTail(Refuse(s.c, t.id, attempt, !permanent), attempt))
      case Done(tables) =>
        Side(Register(s.store, who, t, tables), EndTail(Acknowledge(s.c, t.id, attempt), attempt))
  }

  function Register(store: Store, who: nat, t: Tail, tables: set<string>): Store {
    Added(store, who, t.id, t.path, t.args, tables)
  }

  function Acknowledge(c: Connection, id: string, attempt: nat): Connection {
    var finished := Finish(c, id, attempt);
    finished.(mySubIds := finished.mySubIds + {id}, out := finished.out + [Subscribed(attempt, id)])
  }

  function DoUnsubscribe(s: Side, id: string): Side {
    if s.c.closed then s
    else ClearOwnership(s.(c := s.c.(pending := s.c.pending - {id}, history := s.c.history + [Cancelled(id)])), id)
  }

  function Teardown(s: Side): Side {
    if s.c.closed then s
    else
      Side(s.store.(entries := s.store.entries - s.c.mySubIds),
           s.c.(closed := true, pending := map[], mySubIds := {}, history := s.c.history + [TornDown]))
  }

  // ---------------------------------------------------------------------------------------
  // Connections that share a store
  // ---------------------------------------------------------------------------------------

  datatype State = State(store: Store, connections: seq<Connection>)

  datatype Event =
    | Open
    | Subscribe(c: nat, id: string, path: string, args: string, known: bool)
    | ContextSettles(c: nat, attempt: nat, context: Settled<()>)
    | QuerySettles(c: nat, attempt: nat, tables: Settled<set<string>>)
    | Unsubscribe(c: nat, id: string)
    | Close(c: nat)

  /** `ownerOf` gives each subscription id to the one connection that uses it. */
  predicate Happens(ownerOf: string -> nat, s: State, e: Event) {
    e.Open? ||
    (e.c < |s.connections| &&
     match e
     case Subscribe(c, id, _, _, _) => ownerOf(id) == c
     case ContextSettles(c, attempt, _) => attempt in s.connections[c].tails && !s.connections[c].tails[attempt].calling
     case QuerySettles(c, attempt, _) => attempt in s.connections[c].tails && s.connections[c].tails[attempt].calling
     case _ => true)
  }

  function SideOf(s: State, c: nat): Side
    requires c < |s.connections|
  {
    Side(s.store, s.connections[c])
  }

  function Step(s: Side, e: Event): Side
    requires !e.Open? && (e.ContextSettles? || e.QuerySettles? ==> e.attempt in s.c.tails)
  {
    match e
    case Subscribe(_, id, path, args, known) => DoSubscribe(s, id, path, args, known)
    case ContextSettles(_, attempt, outcome) => AfterContext(s, attempt, outcome)
    case QuerySettles(c, attempt, outcome) => AfterQuery(s, c, attempt, outcome)
    case Unsubscribe(_, id) => DoUnsubscribe(s, id)
    case Close(_) => Teardown(s)
  }

  function Next(ownerOf: string -> nat, s: State, e: Event): State
    requires Happens(ownerOf, s, e)
  {
    if e.Open? then s.(connections := s.connections + [Opened()])
    else
      var side := Step(SideOf(s, e.c), e);
      State(side.store, s.connections[e.c := side.c])
  }

  // ---------------------------------------------------------------------------------------
  // The invariant
  // ---------------------------------------------------------------------------------------

  /** A pending token belongs to a waiting attempt, and it is the newest. */
  ghost predicate Tokens(c: Connection) {
    && (forall id :: id in c.pending ==>
          c.pending[id] in c.tails && c.tails[c.pending[id]].id == id && Newest(c.history, id) == Some(c.pending[id]))
    && (forall a :: a in c.tails ==> 1 <= a <= c.nextAttempt)
    && (forall a :: a in c.tails && Newest(c.history, c.tails[a].id) == Some(a) ==> IsCurrent(c, c.tails[a].id, a))
    && (forall id :: Newest(c.history, id).Some? ==> Newest(c.history, id).value <= c.nextAttempt)
    && (c.closed ==> c.pending == map[] && c.mySubIds == {} && forall id :: Newest(c.history, id) == None)
  }

  /** Every attempt is answered at most once, and a waiting one not yet. */
  ghost predicate Answers(c: Connection) {
    && (forall i, j :: 0 <= i < j < |c.out| ==> c.out[i].attempt != c.out[j].attempt)
    && (forall i :: 0 <= i < |c.out| ==> c.out[i].attempt <= c.nextAttempt && c.out[i].attempt !in c.tails)
  }

  /** A connection holds exactly its own entries. */
  ghost predicate Owns(store: Store, who: nat, c: Connection) {
    forall id :: id in c.mySubIds <==> id in store.entries && store.entries[id].owner == who
  }

  ghost predicate StoreInv(ownerOf: string -> nat, store: Store) {
    && (forall id :: id in store.entries ==> store.entries[id].id == id && store.entries[id].owner == ownerOf(id))
    && (forall id :: id in store.entries ==> store.entries[id].instance < store.instances)
    && (forall i, j :: i in store.entries && j in store.entries && store.entries[i].instance == store.entries[j].instance ==> i == j)
  }

  /** The ids of a connection's waiting attempts are its own. */
  ghost predicate OwnTails(ownerOf: string -> nat, who: nat, c: Connection) {
    forall a :: a in c.tails ==> ownerOf(c.tails[a].id) == who
  }

  ghost predicate ConnectionInv(ownerOf: string -> nat, store: Store, who: nat, c: Connection) {
    Tokens(c) && Answers(c) && Owns(store, who, c) && OwnTails(ownerOf, who, c)
  }

  ghost predicate Inv(ownerOf: string -> nat, s: State) {
    && StoreInv(ownerOf, s.store)
    && (forall id :: id in s.store.entries ==> s.store.entries[id].owner < |s.connections|)
    && forall c: nat :: c < |s.connections| ==> ConnectionInv(ownerOf, s.store, c, s.connections[c])
  }

  lemma NewestAfter(history: seq<Action>, a: Action, id: string)
    ensures Newest(history + [a], id) ==
            match a
            case Started(attempt, started) => if started == id then Some(attempt) else Newest(history, id)
            case Cancelled(cancelled) => if cancelled == id then None else Newest(history, id)
            case TornDown => None
  {
    assert (history + [a])[..|history|] == history;
  }

  /** What one connection's step may do to the store: entries of other owners stay. */
  ghost predicate OthersKept(before: Store, after: Store, who: nat) {
    && after.instances >= before.instances
    && (forall id :: id in before.entries && before.entries[id].owner != who ==> id in after.entries && after.entries[id] == before.entries[id])
    && (forall id :: id in after.entries && after.entries[id].owner != who ==> id in before.entries)
    && (forall id :: id in before.entries && id in after.entries && after.entries[id] != before.entries[id] ==> before.entries[id].owner == who)
  }

  lemma ClearKeeps(ownerOf: string -> nat, s: Side, who: nat, id: string)
    requires StoreInv(ownerOf, s.store) && Owns(s.store, who, s.c)
    ensures var next := ClearOwnership(s, id);
            && StoreInv(ownerOf, next.store) && Owns(next.store, who, next.c) && OthersKept(s.store, next.store, who)
            && next.c == s.c.(mySubIds := s.c.mySubIds - {id})
            && next.store.instances == s.store.instances
  {
    assert id !in s.c.mySubIds ==> s.c.mySubIds - {id} == s.c.mySubIds;
  }

  /** The token of a started attempt is pending, and the attempt waits. */
  lemma KnownTokens(c: Connection, id: string, t: Tail, next: Connection)
    requires Tokens(c) && !c.closed && !next.closed && t.id == id
    requires next.nextAttempt == c.nextAttempt + 1 && next.history == c.history + [Started(c.nextAttempt + 1, id)]
    requires next.pending == c.pending[id := c.nextAttempt + 1] && next.tails == c.tails[c.nextAttempt + 1 := t]
    ensures Tokens(next)
  {
    hide Newest;
    NewestAfterStart(c.history, c.nextAttempt + 1, id);
  }

  /** An attempt refused at once leaves no token. */
  lemma UnknownTokens(c: Connection, id: string, next: Connection)
    requires Tokens(c) && !c.closed && !next.closed
    requires next.nextAttempt == c.nextAttempt + 1 && next.history == c.history + [Started(c.nextAttempt + 1, id)]
    requires next.pending == c.pending - {id} && next.tails == c.tails
    ensures Tokens(next)
  {
    hide Newest;
    NewestAfterStart(c.history, c.nextAttempt + 1, id);
  }

  lemma CancelledTokens(c: Connection, id: string, next: Connection)
    requires Tokens(c) && !c.closed && !next.closed
    requires next.nextAttempt == c.nextAttempt && next.history == c.history + [Cancelled(id)]
    requires next.pending == c.pending - {id} && next.tails == c.tails
    ensures Tokens(next)
  {
    hide Newest;
    NewestAfterCancel(c.history, id);
  }

  lemma NewestAfterStart(history: seq<Action>, attempt: nat, id: string)
    ensures forall other :: Newest(history + [Started(attempt, id)], other) == if other == id then Some(attempt) else Newest(history, other)
  {
    forall other
      ensures Newest(history + [Started(attempt, id)], other) == if other == id then Some(attempt) else Newest(history, other)
    {
      NewestAfter(history, Started(attempt, id), other);
    }
  }

  lemma NewestAfterCancel(history: seq<Action>, id: string)
    ensures forall other :: Newest(history + [Cancelled(id)], other) == if other == id then None else Newest(history, other)
  {
    forall other
      ensures Newest(history + [Cancelled(id)], other) == if other == id then None else Newest(history, other)
    {
      NewestAfter(history, Cancelled(id), other);
    }
  }

  lemma NewestAfterTeardown(history: seq<Action>)
    ensures forall other :: Newest(history + [TornDown], other) == None
  {
    forall other
      ensures Newest(history + [TornDown], other) == None
    {
      NewestAfter(history, TornDown, other);
    }
  }

  /** What a subscribe frame makes of an open connection. */
  lemma SubscribeResult(s: Side, id: string, path: string, args: string, known: bool)
    requires !s.c.closed && Tokens(s.c)
    ensures var next, attempt := DoSubscribe(s, id, path, args, known), s.c.nextAttempt + 1;
            && next.store == ClearOwnership(s, id).store
            && next.c.mySubIds == ClearOwnership(s, id).c.mySubIds
            && next.c.history == s.c.history + [Started(attempt, id)] && next.c.nextAttempt == attempt && !next.c.closed
            && (known ==> next.c.pending == s.c.pending[id := attempt] && next.c.tails == s.c.tails[attempt := Tail(id, path, args, false)] && next.c.out == s.c.out)
            && (!known ==> next.c.pending == s.c.pending - {id} && next.c.tails == s.c.tails && next.c.out == s.c.out + [Refused(attempt, id, false)])
  {
    hide Newest;
    assert s.c.pending[id := s.c.nextAttempt + 1] - {id} == s.c.pending - {id};
  }

  lemma SubscribeKeeps(ownerOf: string -> nat, s: Side, who: nat, id: string, path: string, args: string, known: bool)
    requires StoreInv(ownerOf, s.store) && ConnectionInv(ownerOf, s.store, who, s.c) && ownerOf(id) == who
    ensures var next := DoSubscribe(s, id, path, args, known);
            StoreInv(ownerOf, next.store) && ConnectionInv(ownerOf, next.store, who, next.c) && OthersKept(s.store, next.store, who)
  {
    if !s.c.closed {
      var next := DoSubscribe(s, id, path, args, known);
      SubscribeResult(s, id, path, args, known);
      ClearKeeps(ownerOf, s, who, id);
      if known { KnownTokens(s.c, id, Tail(id, path, args, false), next.c); } else { UnknownTokens(s.c, id, next.c); }
      hide StoreInv, Tokens, OthersKept, ClearOwnership, DoSubscribe;
      assert forall a :: a in s.c.tails ==> a <= s.c.nextAttempt by { TailsAreOld(s.c); }
    }
  }

  lemma TailsAreOld(c: Connection)
    requires Tokens(c)
    ensures forall a :: a in c.tails ==> 1 <= a <= c.nextAttempt
  {}

  // ---------------------------------------------------------------------------------------
  // Resumed attempts
  // ---------------------------------------------------------------------------------------

  /** An attempt that ends without an answer. */
  lemma EndKeeps(ownerOf: string -> nat, store: Store, who: nat, c: Connection, attempt: nat)
    requires ConnectionInv(ownerOf, store, who, c) && attempt in c.tails && (!IsCurrent(c, c.tails[attempt].id, attempt) || c.closed)
    ensures ConnectionInv(ownerOf, store, who, EndTail(c, attempt))
  {
    hide Newest;
  }

  /** An attempt that ends with one. */
  lemma AnswerKeeps(c: Connection, attempt: nat, reply: Reply, next: Connection)
    requires Tokens(c) && Answers(c) && attempt in c.tails && IsCurrent(c, c.tails[attempt].id, attempt) && reply.attempt == attempt
    requires next.pending == c.pending - {c.tails[attempt].id} && next.tails == c.tails - {attempt}
    requires next.out == c.out + [reply] && next.nextAttempt == c.nextAttempt && next.history == c.history && next.closed == c.closed
    ensures Tokens(next) && Answers(next)
  {
    hide Newest;
    AnswerTokens(c, attempt, next);
  }

  lemma AnswerTokens(c: Connection, attempt: nat, next: Connection)
    requires Tokens(c) && attempt in c.tails && IsCurrent(c, c.tails[attempt].id, attempt)
    requires next.pending == c.pending - {c.tails[attempt].id} && next.tails == c.tails - {attempt}
    requires next.nextAttempt == c.nextAttempt && next.history == c.history && next.closed == c.closed
    ensures Tokens(next)
  {
    hide Newest;
  }

  lemma RefuseKeeps(ownerOf: string -> nat, store: Store, who: nat, c: Connection, attempt: nat, retryable: bool)
    requires ConnectionInv(ownerOf, store, who, c) && attempt in c.tails && IsCurrent(c, c.tails[attempt].id, attempt)
    ensures ConnectionInv(ownerOf, store, who, EndTail(Refuse(c, c.tails[attempt].id, attempt, retryable), attempt))
  {
    hide Tokens, Answers;
    var id := c.tails[attempt].id;
    AnswerKeeps(c, attempt, Refused(attempt, id, retryable), EndTail(Refuse(c, id, attempt, retryable), attempt));
  }

  lemma CallingKeeps(ownerOf: string -> nat, store: Store, who: nat, c: Connection, attempt: nat)
    requires ConnectionInv(ownerOf, store, who, c) && attempt in c.tails
    ensures ConnectionInv(ownerOf, store, who, c.(tails := c.tails[attempt := c.tails[attempt].(calling := true)]))
  {
    hide Newest;
  }

  lemma ContextKeeps(ownerOf: string -> nat, s: Side, who: nat, attempt: nat, outcome: Settled<()>)
    requires ConnectionInv(ownerOf, s.store, who, s.c) && attempt in s.c.tails
    ensures AfterContext(s, attempt, outcome).store == s.store
    ensures ConnectionInv(ownerOf, s.store, who, AfterContext(s, attempt, outcome).c)
  {
    hide ConnectionInv, EndTail, Refuse;
    if !IsCurrent(s.c, s.c.tails[attempt].id, attempt) || (outcome.Done? && s.c.closed) {
      EndKeeps(ownerOf, s.store, who, s.c, attempt);
    } else if outcome.Threw? {
      RefuseKeeps(ownerOf, s.store, who, s.c, attempt, !outcome.permanent);
    } else {
      CallingKeeps(ownerOf, s.store, who, s.c, attempt);
    }
  }

  lemma RegisterKeeps(ownerOf: string -> nat, store: Store, who: nat, t: Tail, tables: set<string>)
    requires StoreInv(ownerOf, store) && ownerOf(t.id) == who
    ensures StoreInv(ownerOf, Register(store, who, t, tables)) && OthersKept(store, Register(store, who, t, tables), who)
  {}

  lemma QueryKeeps(ownerOf: string -> nat, s: Side, who: nat, attempt: nat, outcome: Settled<set<string>>)
    requires StoreInv(ownerOf, s.store) && ConnectionInv(ownerOf, s.store, who, s.c) && attempt in s.c.tails
    ensures var next := AfterQuery(s, who, attempt, outcome);
            StoreInv(ownerOf, next.store) && ConnectionInv(ownerOf, next.store, who, next.c) && OthersKept(s.store, next.store, who)
  {
    hide EndTail, Refuse, Tokens, Answers, Register, Acknowledge;
    var t := s.c.tails[attempt];
    if !IsCurrent(s.c, t.id, attempt) || (outcome.Done? && s.c.closed) {
      EndKeeps(ownerOf, s.store, who, s.c, attempt);
    } else if outcome.Threw? {
      RefuseKeeps(ownerOf, s.store, who, s.c, attempt, !outcome.permanent);
    } else {
      AcknowledgeKeeps(ownerOf, s, who, attempt, outcome.value);
    }
  }

  lemma AcknowledgeKeeps(ownerOf: string -> nat, s: Side, who: nat, attempt: nat, tables: set<string>)
    requires StoreInv(ownerOf, s.store) && ConnectionInv(ownerOf, s.store, who, s.c)
    requires attempt in s.c.tails && IsCurrent(s.c, s.c.tails[attempt].id, attempt)
    ensures var t := s.c.tails[attempt];
            var store, c := Register(s.store, who, t, tables), EndTail(Acknowledge(s.c, t.id, attempt), attempt);
            StoreInv(ownerOf, store) && ConnectionInv(ownerOf, store, who, c) && OthersKept(s.store, store, who)
  {
    var t := s.c.tails[attempt];
    RegisterKeeps(ownerOf, s.store, who, t, tables);
    hide Tokens, Answers, StoreInv, OthersKept;
    AnswerKeeps(s.c, attempt, Subscribed(attempt, t.id), EndTail(Acknowledge(s.c, t.id, attempt), attempt));
  }

  lemma UnsubscribeKeeps(ownerOf: string -> nat, s: Side, who: nat, id: string)
    requires StoreInv(ownerOf, s.store) && ConnectionInv(ownerOf, s.store, who, s.c)
    ensures var next := DoUnsubscribe(s, id);
            StoreInv(ownerOf, next.store) && ConnectionInv(ownerOf, next.store, who, next.c) && OthersKept(s.store, next.store, who)
  {
    if !s.c.closed {
      var marked := s.(c := s.c.(pending := s.c.pending - {id}, history := s.c.history + [Cancelled(id)]));
      ClearKeeps(ownerOf, marked, who, id);
      CancelledTokens(s.c, id, ClearOwnership(marked, id).c);
      hide Tokens, StoreInv, OthersKept, ClearOwnership;
    }
  }

  lemma TeardownKeeps(ownerOf: string -> nat, s: Side, who: nat)
    requires StoreInv(ownerOf, s.store) && ConnectionInv(ownerOf, s.store, who, s.c)
    ensures var next := Teardown(s);
            StoreInv(ownerOf, next.store) && ConnectionInv(ownerOf, next.store, who, next.c) && OthersKept(s.store, next.store, who)
  {
    hide Newest;
    NewestAfterTeardown(s.c.history);
  }

  lemma StepKeepsSide(ownerOf: string -> nat, s: State, e: Event)
    requires Inv(ownerOf, s) && Happens(ownerOf, s, e) && !e.Open?
    ensures var next := Step(SideOf(s, e.c), e);
            StoreInv(ownerOf, next.store) && ConnectionInv(ownerOf, next.store, e.c, next.c) && OthersKept(s.store, next.store, e.c)
  {
    hide StoreInv, ConnectionInv, DoSubscribe, AfterContext, AfterQuery, DoUnsubscribe, Teardown;
    var side := SideOf(s, e.c);
    assert OthersKept(s.store, s.store, e.c);
    match e
    case Subscribe(c, id, path, args, known) => SubscribeKeeps(ownerOf, side, c, id, path, args, known);
    case ContextSettles(c, attempt, outcome) => ContextKeeps(ownerOf, side, c, attempt, outcome);
    case QuerySettles(c, attempt, outcome) => QueryKeeps(ownerOf, side, c, attempt, outcome);
    case Unsubscribe(c, id) => UnsubscribeKeeps(ownerOf, side, c, id);
    case Close(c) => TeardownKeeps(ownerOf, side, c);
  }

  lemma StepKeepsInv(ownerOf: string -> nat, s: State, e: Event)
    requires Inv(ownerOf, s) && Happens(ownerOf, s, e)
    ensures Inv(ownerOf, Next(ownerOf, s, e))
  {
    if e.Open? {
      OpenKeeps(ownerOf, s);
    } else {
      hide StoreInv, Tokens, Answers, OwnTails, Step;
      StepKeepsSide(ownerOf, s, e);
      var next := Next(ownerOf, s, e);
      forall c: nat | c < |next.connections|
        ensures ConnectionInv(ownerOf, next.store, c, next.connections[c])
      {
        if c != e.c {
          assert ConnectionInv(ownerOf, s.store, c, s.connections[c]);
        }
      }
    }
  }

  lemma OpenKeeps(ownerOf: string -> nat, s: State)
    requires Inv(ownerOf, s)
    ensures Inv(ownerOf, s.(connections := s.connections + [Opened()]))
  {}

  // ---------------------------------------------------------------------------------------
  // Runs
  // ---------------------------------------------------------------------------------------

  function Empty(): State {
    State(Store(map[], 0), [])
  }

  ghost predicate Runs(ownerOf: string -> nat, s: State, events: seq<Event>)
    decreases |events|
  {
    events != [] ==> Happens(ownerOf, s, events[0]) && Runs(ownerOf, Next(ownerOf, s, events[0]), events[1..])
  }

  ghost function Take(ownerOf: string -> nat, s: State, events: seq<Event>): State
    requires Runs(ownerOf, s, events)
    decreases |events|
  {
    if events == [] then s else Take(ownerOf, Next(ownerOf, s, events[0]), events[1..])
  }

  ghost predicate Reachable(ownerOf: string -> nat, s: State) {
    exists events :: Runs(ownerOf, Empty(), events) && s == Take(ownerOf, Empty(), events)
  }

  lemma {:induction false} RunKeepsInv(ownerOf: string -> nat, s: State, events: seq<Event>)
    requires Inv(ownerOf, s) && Runs(ownerOf, s, events)
    ensures Inv(ownerOf, Take(ownerOf, s, events))
    decreases |events|
  {
    hide Inv, Happens, Next;
    if events != [] {
      StepKeepsInv(ownerOf, s, events[0]);
      RunKeepsInv(ownerOf, Next(ownerOf, s, events[0]), events[1..]);
    }
  }

  lemma ReachableKeepsInv(ownerOf: string -> nat, s: State)
    requires Reachable(ownerOf, s)
    ensures Inv(ownerOf, s)
  {
    hide Happens, Next;
    var events :| Runs(ownerOf, Empty(), events) && s == Take(ownerOf, Empty(), events);
    RunKeepsInv(ownerOf, Empty(), events);
  }

  /** In every run a completing query registers exactly when its attempt is the newest uncancelled one for the id. */
  lemma OnlyTheNewestAttemptRegisters(ownerOf: string -> nat, s: State, c: nat, attempt: nat, outcome: Settled<set<string>>)
    requires Reachable(ownerOf, s) && Happens(ownerOf, s, QuerySettles(c, attempt, outcome))
    ensures var t, next := s.connections[c].tails[attempt], Next(ownerOf, s, QuerySettles(c, attempt, outcome));
            && (next.store != s.store <==> outcome.Done? && Newest(s.connections[c].history, t.id) == Some(attempt))
            && (next.store != s.store ==>
                  && next.store == Added(s.store, c, t.id, t.path, t.args, outcome.value)
                  && next.connections[c].out == s.connections[c].out + [Subscribed(attempt, t.id)])
  {
    ReachableKeepsInv(ownerOf, s);
    var conn := s.connections[c];
    assert ConnectionInv(ownerOf, s.store, c, conn);
    CurrentIffNewest(conn, attempt);
    hide Newest, Tokens, Answers, StoreInv;
    var next := Next(ownerOf, s, QuerySettles(c, attempt, outcome));
    assert next.store != s.store ==> next.store.instances == s.store.instances + 1;
  }

  lemma CurrentIffNewest(c: Connection, attempt: nat)
    requires Tokens(c) && attempt in c.tails
    ensures IsCurrent(c, c.tails[attempt].id, attempt) <==> Newest(c.history, c.tails[attempt].id) == Some(attempt)
    ensures c.closed ==> !IsCurrent(c, c.tails[attempt].id, attempt)
  {}

  /**
   * What a step lets a connection answer: an unknown query is refused for good, a newest attempt whose context or
   * query threw is refused for good exactly if the error is permanent, and one whose query returned is acknowledged.
   */
  ghost function Replies(c: Connection, e: Event): seq<Reply>
    requires e.ContextSettles? || e.QuerySettles? ==> e.attempt in c.tails
  {
    match e
    case Subscribe(_, id, _, _, known) => if c.closed || known then [] else [Refused(c.nextAttempt + 1, id, false)]
    case ContextSettles(_, attempt, Threw(permanent)) =>
      if Newest(c.history, c.tails[attempt].id) == Some(attempt) then [Refused(attempt, c.tails[attempt].id, !permanent)] else []
    case QuerySettles(_, attempt, Threw(permanent)) =>
      if Newest(c.history, c.tails[attempt].id) == Some(attempt) then [Refused(attempt, c.tails[attempt].id, !permanent)] else []
    case QuerySettles(_, attempt, Done(_)) =>
      if Newest(c.history, c.tails[attempt].id) == Some(attempt) then [Subscribed(attempt, c.tails[attempt].id)] else []
    case _ => []
  }

  /** In every run a step answers exactly that, on its own connection and no other. */
  lemma StepReplies(ownerOf: string -> nat, s: State, e: Event, c: nat)
    requires Reachable(ownerOf, s) && Happens(ownerOf, s, e) && c < |s.connections|
    ensures c < |Next(ownerOf, s, e).connections|
    ensures Next(ownerOf, s, e).connections[c].out
         == s.connections[c].out + if !e.Open? && e.c == c then Replies(s.connections[c], e) else []
  {
    ReachableKeepsInv(ownerOf, s);
    assert ConnectionInv(ownerOf, s.store, c, s.connections[c]);
    if !e.Open? && e.c == c {
      if e.ContextSettles? || e.QuerySettles? {
        CurrentIffNewest(s.connections[c], e.attempt);
      }
      hide Newest, Tokens, Answers, StoreInv;
    }
  }

  // ---------------------------------------------------------------------------------------
  // What was asked for
  // ---------------------------------------------------------------------------------------

  datatype Asked = Asked(owner: nat, id: string, path: string, args: string)

  function AskedIn(events: seq<Event>): set<Asked> {
    set i | 0 <= i < |events| && events[i].Subscribe? :: Asked(events[i].c, events[i].id, events[i].path, events[i].args)
  }

  /** Waiting attempts and registered entries carry the path and arguments of a request. */
  ghost predicate AllAsked(s: State, asked: set<Asked>) {
    && (forall c: nat, a :: c < |s.connections| && a in s.connections[c].tails ==>
          Asked(c, s.connections[c].tails[a].id, s.connections[c].tails[a].path, s.connections[c].tails[a].args) in asked)
    && (forall id :: id in s.store.entries ==>
          Asked(s.store.entries[id].owner, s.store.entries[id].id, s.store.entries[id].path, s.store.entries[id].args) in asked)
  }

  lemma StepKeepsAsked(ownerOf: string -> nat, s: State, e: Event, asked: set<Asked>)
    requires Happens(ownerOf, s, e) && AllAsked(s, asked)
    ensures AllAsked(Next(ownerOf, s, e), asked + AskedIn([e]))
  {
    if e.Subscribe? {
      assert [e][0] == e;
      assert Asked(e.c, e.id, e.path, e.args) in AskedIn([e]);
    }
  }

  lemma {:induction false} RunKeepsAsked(ownerOf: string -> nat, s: State, events: seq<Event>, asked: set<Asked>)
    requires Runs(ownerOf, s, events) && AllAsked(s, asked)
    ensures AllAsked(Take(ownerOf, s, events), asked + AskedIn(events))
    decreases |events|
  {
    hide AllAsked, Next, Happens;
    if events == [] {
      assert asked + AskedIn(events) == asked;
    } else {
      StepKeepsAsked(ownerOf, s, events[0], asked);
      RunKeepsAsked(ownerOf, Next(ownerOf, s, events[0]), events[1..], asked + AskedIn([events[0]]));
      assert asked + AskedIn(events) == asked + AskedIn([events[0]]) + AskedIn(events[1..]) by {
        AskedSplits(events);
      }
    }
  }

  lemma AskedSplits(events: seq<Event>)
    requires events != []
    ensures AskedIn(events) == AskedIn([events[0]]) + AskedIn(events[1..])
  {
    assert events == [events[0]] + events[1..];
    forall x | x in AskedIn(events)
      ensures x in AskedIn([events[0]]) + AskedIn(events[1..])
    {
      var i :| 0 <= i < |events| && events[i].Subscribe? && x == Asked(events[i].c, events[i].id, events[i].path, events[i].args);
      assert i > 0 ==> events[1..][i - 1] == events[i];
      assert i == 0 ==> [events[0]][0] == events[0];
    }
    forall x | x in AskedIn(events[1..])
      ensures x in AskedIn(events)
    {
      var i :| 0 <= i < |events[1..]| && events[1..][i].Subscribe?
               && x == Asked(events[1..][i].c, events[1..][i].id, events[1..][i].path, events[1..][i].args);
      assert events[i + 1] == events[1..][i];
    }
  }

  /** In every run each entry of the store runs the query, with the arguments, that its own connection asked for under its id. */
  lemma EntriesWereAskedFor(ownerOf: string -> nat, events: seq<Event>, id: string)
    requires Runs(ownerOf, Empty(), events) && id in Take(ownerOf, Empty(), events).store.entries
    ensures var entry := Take(ownerOf, Empty(), events).store.entries[id];
            exists i: nat, known :: i < |events| && events[i] == Subscribe(entry.owner, id, entry.path, entry.args, known)
  {
    RunKeepsAsked(ownerOf, Empty(), events, {});
    var s := Take(ownerOf, Empty(), events);
    var entry := s.store.entries[id];
    RunKeepsInv(ownerOf, Empty(), events);
    assert StoreInv(ownerOf, s.store);
    var i :| 0 <= i < |events| && events[i].Subscribe?
             && Asked(entry.owner, id, entry.path, entry.args) == Asked(events[i].c, events[i].id, events[i].path, events[i].args);
    assert events[i] == Subscribe(entry.owner, id, entry.path, entry.args, events[i].known);
  }

  /** A superseded, cancelled or torn-down attempt changes nothing and says nothing, however it ends. */
  lemma SupersededAttemptsAreSilent(ownerOf: string -> nat, s: State, e: Event)
    requires Reachable(ownerOf, s) && Happens(ownerOf, s, e) && (e.ContextSettles? || e.QuerySettles?)
    requires Newest(s.connections[e.c].history, s.connections[e.c].tails[e.attempt].id) != Some(e.attempt)
    ensures var next := Next(ownerOf, s, e);
            next.store == s.store && next.connections == s.connections[e.c := EndTail(s.connections[e.c], e.attempt)]
  {
    ReachableKeepsInv(ownerOf, s);
    assert ConnectionInv(ownerOf, s.store, e.c, s.connections[e.c]);
    CurrentIffNewest(s.connections[e.c], e.attempt);
    hide Newest, Tokens, Answers, StoreInv;
  }

  /** A connection's ids are those of the entries it owns, each id has one owner, and every attempt has at most one reply. */
  lemma ConnectionsHoldTheirEntries(ownerOf: string -> nat, s: State, c: nat)
    requires Reachable(ownerOf, s) && c < |s.connections|
    ensures forall id :: id in s.connections[c].mySubIds <==> id in s.store.entries && s.store.entries[id].owner == c
    ensures forall id :: id in s.store.entries ==> s.store.entries[id].owner == ownerOf(id) < |s.connections|
    ensures var out := s.connections[c].out; forall i, j :: 0 <= i < j < |out| ==> out[i].attempt != out[j].attempt
  {
    ReachableKeepsInv(ownerOf, s);
    assert ConnectionInv(ownerOf, s.store, c, s.connections[c]);
  }

  lemma ClosedStaysClosed(ownerOf: string -> nat, s: State, e: Event, c: nat)
    requires c < |s.connections| && s.connections[c].closed && Happens(ownerOf, s, e)
    ensures c < |Next(ownerOf, s, e).connections| && Next(ownerOf, s, e).connections[c].closed
  {}

  /** After teardown a connection has no entry, and none comes back in any later run. */
  lemma {:induction false} NothingReturnsAfterTeardown(ownerOf: string -> nat, s: State, c: nat, events: seq<Event>)
    requires Inv(ownerOf, s) && c < |s.connections| && s.connections[c].closed && Runs(ownerOf, s, events)
    ensures forall id :: id in Take(ownerOf, s, events).store.entries ==> Take(ownerOf, s, events).store.entries[id].owner != c
    decreases |events|
  {
    if events == [] {
      assert ConnectionInv(ownerOf, s.store, c, s.connections[c]);
    } else {
      hide Inv, Next;
      StepKeepsInv(ownerOf, s, events[0]);
      ClosedStaysClosed(ownerOf, s, events[0], c);
      NothingReturnsAfterTeardown(ownerOf, Next(ownerOf, s, events[0]), c, events[1..]);
    }
  }
}
