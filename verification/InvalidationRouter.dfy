/**
 * Routing of write events to subscriptions (packages/server/src/engine/invalidation-router.ts):
 * one promise chain per entry instance, each link checking that its entry is still the live one.
 */
module InvalidationRouter {
  import opened Common
  import opened SubscriptionStore

  datatype Status = Waiting | Running | Finished

  /** A link starts once the link before it has settled. */
  datatype Link = Link(instance: nat, id: string, prev: Option<nat>, status: Status)

  /** `link` is the recompute the frame reports. */
  datatype Frame = Frame(link: nat, instance: nat, id: string)

  /** `tails` is the last link chained for an instance, until its `finally` drops it. */
  datatype State = State(store: Store, links: seq<Link>, tails: map<nat, nat>, frames: seq<Frame>)

  function Fresh(): State {
    State(Store(map[], 0), [], map[], [])
  }

  datatype Event =
    | Register(owner: nat, id: string, path: string, args: string, tables: set<string>)
    | Unregister(id: string)
    | Written(tables: set<string>, affected: seq<Entry>)
    | LinkStarts(link: nat)
    | RecomputeEnds(link: nat, tablesRead: Option<set<string>>)
    | LinkFinally(link: nat)

  predicate IsLive(store: Store, instance: nat, id: string) {
    id in store.entries && store.entries[id].instance == instance
  }

  // ---------------------------------------------------------------------------------------
  // Steps
  // ---------------------------------------------------------------------------------------

  function Chain(s: State, e: Entry): State {
    s.(links := s.links + [Link(e.instance, e.id, if e.instance in s.tails then Some(s.tails[e.instance]) else None, Waiting)],
       tails := s.tails[e.instance := |s.links|])
  }

  function ChainAll(s: State, affected: seq<Entry>): State {
    if affected == [] then s else Chain(ChainAll(s, affected[..|affected| - 1]), affected[|affected| - 1])
  }

  function SetStatus(links: seq<Link>, l: nat, status: Status): seq<Link>
    requires l < |links|
  {
    links[l := links[l].(status := status)]
  }

  /** The first liveness check; a dead entry is not recomputed. */
  function Begin(s: State, l: nat): State
    requires l < |s.links|
  {
    s.(links := SetStatus(s.links, l, if IsLive(s.store, s.links[l].instance, s.links[l].id) then Running else Finished))
  }

  /** The second one, and then the frame. A recompute that threw leaves the tables as they were. */
  function End(s: State, l: nat, tablesRead: Option<set<string>>): State
    requires l < |s.links|
  {
    var link := s.links[l];
    var ended := s.(links := SetStatus(s.links, l, Finished));
    if IsLive(s.store, link.instance, link.id) then
      ended.(store := if tablesRead.Some? then Watching(s.store, link.id, tablesRead.value) else s.store,
             frames := s.frames + [Frame(l, link.instance, link.id)])
    else ended
  }

  function Watching(store: Store, id: string, tables: set<string>): Store
    requires id in store.entries
  {
    store.(entries := store.entries[id := store.entries[id].(tables := tables)])
  }

  function Cleanup(s: State, l: nat): State
    requires l < |s.links|
  {
    var instance := s.links[l].instance;
    if instance in s.tails && s.tails[instance] == l then s.(tails := s.tails - {instance}) else s
  }

  ghost predicate ListsAffected(store: Store, written: set<string>, affected: seq<Entry>) {
    && (forall e :: e in affected <==> (exists id :: id in store.entries && store.entries[id] == e) && Affects(written, e))
    && (forall i, j :: 0 <= i < j < |affected| ==> affected[i] != affected[j])
  }

  ghost predicate Happens(s: State, e: Event) {
    match e
    case Register(_, _, _, _, _) => true
    case Unregister(_) => true
    case Written(tables, affected) => ListsAffected(s.store, tables, affected)
    case LinkStarts(l) =>
      && l < |s.links| && s.links[l].status == Waiting
      && (s.links[l].prev.None? || (s.links[l].prev.value < |s.links| && s.links[s.links[l].prev.value].status == Finished))
    case RecomputeEnds(l, _) => l < |s.links| && s.links[l].status == Running
    case LinkFinally(l) => l < |s.links| && s.links[l].status == Finished
  }

  ghost function Next(s: State, e: Event): State
    requires Happens(s, e)
  {
    match e
    case Register(owner, id, path, args, tables) => s.(store := Added(s.store, owner, id, path, args, tables))
    case Unregister(id) => s.(store := s.store.(entries := s.store.entries - {id}))
    case Written(_, affected) => ChainAll(s, affected)
    case LinkStarts(l) => Begin(s, l)
    case RecomputeEnds(l, tablesRead) => End(s, l, tablesRead)
    case LinkFinally(l) => Cleanup(s, l)
  }

  // ---------------------------------------------------------------------------------------
  // The invariant
  // ---------------------------------------------------------------------------------------

  predicate Same(links: seq<Link>, i: nat, j: nat) {
    i < |links| && j < |links| && links[i].instance == links[j].instance
  }

  /** Each chain runs in order: a link that has begun follows only settled ones. */
  ghost predicate Ordered(links: seq<Link>) {
    forall i, j :: 0 <= i < j < |links| && links[i].instance == links[j].instance && links[j].status != Waiting ==> links[i].status == Finished
  }

  /** A link waits for the one just before it in its chain, or for none when all before it are settled. */
  ghost predicate Chained(links: seq<Link>) {
    forall j :: 0 <= j < |links| ==>
      match links[j].prev
      case Some(p) => p < j && links[p].instance == links[j].instance
                      && forall i :: 0 <= i < j && links[i].instance == links[j].instance ==> i <= p
      case None => forall i :: 0 <= i < j && links[i].instance == links[j].instance ==> links[i].status == Finished
  }

  /** A tail is the last link of its instance; an instance without one has none unsettled. */
  ghost predicate Tailed(links: seq<Link>, tails: map<nat, nat>) {
    && (forall e :: e in tails ==> tails[e] < |links| && links[tails[e]].instance == e)
    && (forall e :: e in tails ==> forall i :: tails[e] < i < |links| ==> links[i].instance != e)
    && (forall i :: 0 <= i < |links| && links[i].instance !in tails ==> links[i].status == Finished)
  }

  function CountFinished(links: seq<Link>, instance: nat): nat {
    if links == [] then 0
    else
      var last := links[|links| - 1];
      CountFinished(links[..|links| - 1], instance) + if last.instance == instance && last.status == Finished then 1 else 0
  }

  function CountLinks(links: seq<Link>, instance: nat): nat {
    if links == [] then 0
    else CountLinks(links[..|links| - 1], instance) + if links[|links| - 1].instance == instance then 1 else 0
  }

  function CountFrames(frames: seq<Frame>, instance: nat): nat {
    if frames == [] then 0
    else CountFrames(frames[..|frames| - 1], instance) + if frames[|frames| - 1].instance == instance then 1 else 0
  }

  /** Instances in the store are distinct and known, and a link of a live instance names its id. */
  ghost predicate Instances(s: State) {
    && (forall id :: id in s.store.entries ==> s.store.entries[id].id == id && s.store.entries[id].instance < s.store.instances)
    && (forall i, j :: i in s.store.entries && j in s.store.entries && s.store.entries[i].instance == s.store.entries[j].instance ==> i == j)
    && (forall l :: 0 <= l < |s.links| ==> s.links[l].instance < s.store.instances)
    && (forall l, id :: 0 <= l < |s.links| && id in s.store.entries && s.store.entries[id].instance == s.links[l].instance ==> s.links[l].id == id)
    && (forall f :: 0 <= f < |s.frames| ==> s.frames[f].instance < s.store.instances)
  }

  /** A live instance has had one frame for each settled link. */
  ghost predicate Answered(s: State) {
    forall id :: id in s.store.entries ==>
      CountFrames(s.frames, s.store.entries[id].instance) == CountFinished(s.links, s.store.entries[id].instance)
  }

  /** Frames report settled links of their instance, in the order of the chain. */
  ghost predicate InOrder(s: State) {
    && (forall f :: 0 <= f < |s.frames| ==>
          s.frames[f].link < |s.links| && s.links[s.frames[f].link].instance == s.frames[f].instance && s.links[s.frames[f].link].status == Finished)
    && (forall f, g :: 0 <= f < g < |s.frames| && s.frames[f].instance == s.frames[g].instance ==> s.frames[f].link < s.frames[g].link)
  }

  ghost predicate Inv(s: State) {
    && Ordered(s.links) && Chained(s.links) && Tailed(s.links, s.tails)
    && Instances(s) && Answered(s) && InOrder(s)
  }

  // ---------------------------------------------------------------------------------------
  // Counting
  // ---------------------------------------------------------------------------------------

  lemma {:induction false} FinishCounts(links: seq<Link>, l: nat, status: Status, instance: nat)
    requires l < |links| && links[l].status != Finished
    ensures CountFinished(SetStatus(links, l, status), instance)
         == CountFinished(links, instance) + if links[l].instance == instance && status == Finished then 1 else 0
  {
    var n := |links| - 1;
    if l < n {
      assert SetStatus(links, l, status)[..n] == SetStatus(links[..n], l, status);
      FinishCounts(links[..n], l, status, instance);
    } else {
      assert SetStatus(links, l, status)[..n] == links[..n];
    }
  }

  lemma WaitingCountsNothing(links: seq<Link>, link: Link, instance: nat)
    requires link.status == Waiting
    ensures CountFinished(links + [link], instance) == CountFinished(links, instance)
    ensures CountLinks(links + [link], instance) == CountLinks(links, instance) + if link.instance == instance then 1 else 0
  {
    assert (links + [link])[..|links|] == links;
  }

  lemma FrameCounts(frames: seq<Frame>, f: Frame, instance: nat)
    ensures CountFrames(frames + [f], instance) == CountFrames(frames, instance) + if f.instance == instance then 1 else 0
  {
    assert (frames + [f])[..|frames|] == frames;
  }

  lemma {:induction false} UnknownCountsNothing(s: State, instance: nat)
    requires forall l :: 0 <= l < |s.links| ==> s.links[l].instance != instance
    requires forall f :: 0 <= f < |s.frames| ==> s.frames[f].instance != instance
    ensures CountFinished(s.links, instance) == 0 && CountFrames(s.frames, instance) == 0
    decreases |s.links| + |s.frames|
  {
    if s.links != [] {
      UnknownCountsNothing(s.(links := s.links[..|s.links| - 1]), instance);
    } else if s.frames != [] {
      UnknownCountsNothing(s.(frames := s.frames[..|s.frames| - 1]), instance);
    }
  }

  // ---------------------------------------------------------------------------------------
  // Steps keep the invariant
  // ---------------------------------------------------------------------------------------

  /** A link that may start follows only settled ones. */
  lemma ReadyFollowsSettled(s: State, l: nat)
    requires Ordered(s.links) && Chained(s.links) && Happens(s, LinkStarts(l))
    ensures forall i :: 0 <= i < l && s.links[i].instance == s.links[l].instance ==> s.links[i].status == Finished
  {}

  lemma BeginKeeps(s: State, l: nat)
    requires Inv(s) && Happens(s, LinkStarts(l))
    ensures Inv(Begin(s, l))
  {
    ReadyFollowsSettled(s, l);
    var next := Begin(s, l);
    var status := next.links[l].status;
    StatusKeepsChains(s.links, s.tails, l, status);
    hide Ordered, Chained, Tailed;
    forall id | id in s.store.entries
      ensures CountFrames(next.frames, s.store.entries[id].instance) == CountFinished(next.links, s.store.entries[id].instance)
    {
      FinishCounts(s.links, l, status, s.store.entries[id].instance);
    }
  }

  /** A link that moves on after all before it have settled. */
  lemma StatusKeepsChains(links: seq<Link>, tails: map<nat, nat>, l: nat, status: Status)
    requires l < |links| && Ordered(links) && Chained(links) && Tailed(links, tails)
    requires links[l].status != Finished && status != Waiting
    requires forall i :: 0 <= i < l && links[i].instance == links[l].instance ==> links[i].status == Finished
    ensures Ordered(SetStatus(links, l, status)) && Chained(SetStatus(links, l, status)) && Tailed(SetStatus(links, l, status), tails)
  {
    StatusKeepsOrder(links, l, status);
    StatusKeepsLinks(links, l, status);
    hide Ordered, Chained;
  }

  lemma StatusKeepsOrder(links: seq<Link>, l: nat, status: Status)
    requires l < |links| && Ordered(links) && links[l].status != Finished && status != Waiting
    requires forall i :: 0 <= i < l && links[i].instance == links[l].instance ==> links[i].status == Finished
    ensures Ordered(SetStatus(links, l, status))
  {}

  lemma StatusKeepsLinks(links: seq<Link>, l: nat, status: Status)
    requires l < |links| && Chained(links) && links[l].status != Finished
    ensures Chained(SetStatus(links, l, status))
  {}

  lemma EndKeeps(s: State, l: nat, tablesRead: Option<set<string>>)
    requires Inv(s) && Happens(s, RecomputeEnds(l, tablesRead))
    ensures Inv(End(s, l, tablesRead))
  {
    assert forall i :: 0 <= i < l && s.links[i].instance == s.links[l].instance ==> s.links[i].status == Finished;
    StatusKeepsChains(s.links, s.tails, l, Finished);
    FramesBefore(s, l);
    EndKeepsInstances(s, l, tablesRead);
    EndAnswers(s, l, tablesRead);
    EndKeepsOrder(s, l, tablesRead);
    hide Ordered, Chained, Tailed, Instances, Answered, InOrder;
  }

  lemma EndKeepsInstances(s: State, l: nat, tablesRead: Option<set<string>>)
    requires Instances(s) && l < |s.links|
    ensures Instances(End(s, l, tablesRead))
  {
    hide Watching;
    var link := s.links[l];
    if IsLive(s.store, link.instance, link.id) && tablesRead.Some? {
      WatchingKeepsInstances(s.store, link.id, tablesRead.value);
    }
  }

  lemma WatchingKeepsInstances(store: Store, id: string, tables: set<string>)
    requires id in store.entries
    ensures var next := Watching(store, id, tables);
            && next.instances == store.instances && next.entries.Keys == store.entries.Keys
            && forall other :: other in store.entries ==>
                 next.entries[other].id == store.entries[other].id && next.entries[other].instance == store.entries[other].instance
  {}

  lemma EndAnswers(s: State, l: nat, tablesRead: Option<set<string>>)
    requires Instances(s) && Answered(s) && l < |s.links| && s.links[l].status == Running
    ensures Answered(End(s, l, tablesRead))
  {
    hide CountFinished, CountFrames;
    var next, link := End(s, l, tablesRead), s.links[l];
    forall id | id in next.store.entries
      ensures CountFrames(next.frames, next.store.entries[id].instance) == CountFinished(next.links, next.store.entries[id].instance)
    {
      var instance := s.store.entries[id].instance;
      FinishCounts(s.links, l, Finished, instance);
      FrameCounts(s.frames, Frame(l, link.instance, link.id), instance);
    }
  }

  lemma EndKeepsOrder(s: State, l: nat, tablesRead: Option<set<string>>)
    requires InOrder(s) && l < |s.links|
    requires forall f :: 0 <= f < |s.frames| && s.frames[f].instance == s.links[l].instance ==> s.frames[f].link < l
    ensures InOrder(End(s, l, tablesRead))
  {
    hide IsLive, Watching;
  }

  /** While a link runs, every frame of its instance is of an earlier link. */
  lemma FramesBefore(s: State, l: nat)
    requires Ordered(s.links) && InOrder(s) && l < |s.links| && s.links[l].status == Running
    ensures forall f :: 0 <= f < |s.frames| && s.frames[f].instance == s.links[l].instance ==> s.frames[f].link < l
  {}

  lemma ChainCounts(s: State, e: Entry)
    ensures forall instance :: CountLinks(Chain(s, e).links, instance) == CountLinks(s.links, instance) + if instance == e.instance then 1 else 0
    ensures forall instance :: CountFinished(Chain(s, e).links, instance) == CountFinished(s.links, instance)
  {
    var next := Chain(s, e);
    var link := next.links[|s.links|];
    forall instance
      ensures CountFinished(next.links, instance) == CountFinished(s.links, instance)
      ensures CountLinks(next.links, instance) == CountLinks(s.links, instance) + if instance == e.instance then 1 else 0
    {
      WaitingCountsNothing(s.links, link, instance);
    }
  }

  lemma ChainKeeps(s: State, e: Entry)
    requires Inv(s) && e.id in s.store.entries && s.store.entries[e.id] == e
    ensures Inv(Chain(s, e)) && Chain(s, e).store == s.store && Chain(s, e).frames == s.frames
    ensures forall instance :: CountLinks(Chain(s, e).links, instance) == CountLinks(s.links, instance) + if instance == e.instance then 1 else 0
  {
    ChainKeepsChains(s, e);
    ChainCounts(s, e);
    ChainKeepsInstances(s, e);
    hide Ordered, Chained, Tailed, CountFinished, CountFrames, CountLinks, Instances;
  }

  lemma ChainKeepsInstances(s: State, e: Entry)
    requires Instances(s) && e.id in s.store.entries && s.store.entries[e.id] == e
    ensures Instances(Chain(s, e))
  {}

  lemma ChainKeepsChains(s: State, e: Entry)
    requires Ordered(s.links) && Chained(s.links) && Tailed(s.links, s.tails)
    ensures var next := Chain(s, e); Ordered(next.links) && Chained(next.links) && Tailed(next.links, next.tails)
  {}

  predicate Includes(affected: seq<Entry>, instance: nat) {
    exists i :: 0 <= i < |affected| && affected[i].instance == instance
  }

  lemma IncludesLast(init: seq<Entry>, last: Entry, instance: nat)
    ensures Includes(init + [last], instance) <==> Includes(init, instance) || last.instance == instance
  {
    var all := init + [last];
    assert all[|init|] == last;
    if Includes(init, instance) {
      var i :| 0 <= i < |init| && init[i].instance == instance;
      assert all[i].instance == instance;
    }
  }

  /** A write adds one link for each affected instance, and none for any other. */
  lemma {:induction false} ChainAllKeeps(s: State, affected: seq<Entry>)
    requires Inv(s) && forall i :: 0 <= i < |affected| ==> affected[i].id in s.store.entries && s.store.entries[affected[i].id] == affected[i]
    requires forall i, j :: 0 <= i < j < |affected| ==> affected[i].instance != affected[j].instance
    ensures Inv(ChainAll(s, affected)) && ChainAll(s, affected).store == s.store && ChainAll(s, affected).frames == s.frames
    ensures forall instance ::
              CountLinks(ChainAll(s, affected).links, instance) == CountLinks(s.links, instance) + if Includes(affected, instance) then 1 else 0
  {
    hide Inv, Chain, CountLinks;
    if affected != [] {
      var init, last := affected[..|affected| - 1], affected[|affected| - 1];
      ChainAllKeeps(s, init);
      ChainKeeps(ChainAll(s, init), last);
      assert affected == init + [last];
      forall instance
        ensures Includes(affected, instance) <==> Includes(init, instance) || last.instance == instance
      {
        IncludesLast(init, last, instance);
      }
      assert !Includes(init, last.instance);
    }
  }

  lemma DistinctInstances(s: State)
    requires Inv(s)
    ensures forall i, j :: i in s.store.entries && j in s.store.entries && s.store.entries[i].instance == s.store.entries[j].instance ==> i == j
    ensures forall id :: id in s.store.entries ==> s.store.entries[id].id == id && s.store.entries[id].instance < s.store.instances
  {}

  lemma RegisterKeeps(s: State, owner: nat, id: string, path: string, args: string, tables: set<string>)
    requires Inv(s)
    ensures Inv(s.(store := Added(s.store, owner, id, path, args, tables)))
  {
    UnknownCountsNothing(s, s.store.instances);
    hide Ordered, Chained, Tailed, CountFinished, CountFrames;
  }

  lemma CleanupKeeps(s: State, l: nat)
    requires Inv(s) && Happens(s, LinkFinally(l))
    ensures Inv(Cleanup(s, l))
  {
    hide CountFinished, CountFrames;
  }

  lemma StepKeepsInv(s: State, e: Event)
    requires Inv(s) && Happens(s, e)
    ensures Inv(Next(s, e))
  {
    match e
    case Register(owner, id, path, args, tables) => RegisterKeeps(s, owner, id, path, args, tables);
    case Unregister(_) => hide CountFinished, CountFrames;
    case Written(tables, affected) =>
      DistinctInstances(s);
      AffectedAreLive(s, tables, affected);
      ChainAllKeeps(s, affected);
    case LinkStarts(l) => BeginKeeps(s, l);
    case RecomputeEnds(l, tablesRead) => EndKeeps(s, l, tablesRead);
    case LinkFinally(l) => CleanupKeeps(s, l);
  }

  lemma AffectedAreLive(s: State, tables: set<string>, affected: seq<Entry>)
    requires Inv(s) && ListsAffected(s.store, tables, affected)
    ensures forall i :: 0 <= i < |affected| ==> affected[i].id in s.store.entries && s.store.entries[affected[i].id] == affected[i]
    ensures forall i, j :: 0 <= i < j < |affected| ==> affected[i].instance != affected[j].instance
    ensures forall id :: id in s.store.entries ==> (Includes(affected, s.store.entries[id].instance) <==> Affects(tables, s.store.entries[id]))
  {
    DistinctInstances(s);
    hide Inv, Affects;
    forall i | 0 <= i < |affected|
      ensures affected[i].id in s.store.entries && s.store.entries[affected[i].id] == affected[i]
    {
      assert affected[i] in affected;
    }
    forall id | id in s.store.entries
      ensures Includes(affected, s.store.entries[id].instance) <==> Affects(tables, s.store.entries[id])
    {
      var e := s.store.entries[id];
      if Affects(tables, e) {
        assert e in affected;
        var i :| 0 <= i < |affected| && affected[i] == e;
        assert affected[i].instance == e.instance;
      }
      if Includes(affected, e.instance) {
        var i :| 0 <= i < |affected| && affected[i].instance == e.instance;
        assert affected[i] == e && affected[i] in affected;
      }
    }
  }

  // ---------------------------------------------------------------------------------------
  // Runs
  // ---------------------------------------------------------------------------------------

  ghost predicate Runs(s: State, events: seq<Event>)
    decreases |events|
  {
    events != [] ==> Happens(s, events[0]) && Runs(Next(s, events[0]), events[1..])
  }

  ghost function Take(s: State, events: seq<Event>): State
    requires Runs(s, events)
    decreases |events|
  {
    if events == [] then s else Take(Next(s, events[0]), events[1..])
  }

  ghost predicate Reachable(s: State) {
    exists events :: Runs(Fresh(), events) && s == Take(Fresh(), events)
  }

  lemma {:induction false} RunKeepsInv(s: State, events: seq<Event>)
    requires Inv(s) && Runs(s, events)
    ensures Inv(Take(s, events))
    decreases |events|
  {
    hide Inv, Happens, Next;
    if events != [] {
      StepKeepsInv(s, events[0]);
      RunKeepsInv(Next(s, events[0]), events[1..]);
    }
  }

  lemma ReachableKeepsInv(s: State)
    requires Reachable(s)
    ensures Inv(s)
  {
    hide Happens, Next;
    var events :| Runs(Fresh(), events) && s == Take(Fresh(), events);
    RunKeepsInv(Fresh(), events);
  }

  /** At most one recompute of an instance is in flight, and it is the earliest link not yet settled. */
  lemma OneRecomputeInFlight(s: State, l: nat, m: nat)
    requires Reachable(s) && l < |s.links| && m < |s.links| && s.links[l].instance == s.links[m].instance
    requires s.links[l].status == Running
    ensures s.links[m].status == Running ==> l == m
    ensures m < l ==> s.links[m].status == Finished
    ensures m > l ==> s.links[m].status == Waiting
  {
    ReachableKeepsInv(s);
  }

  /** A frame goes out only for the instance that is live, one per step, after all earlier frames of its chain. */
  lemma FramesOnlyWhenLive(s: State, e: Event)
    requires Reachable(s) && Happens(s, e) && Next(s, e).frames != s.frames
    ensures e.RecomputeEnds?
    ensures var link := s.links[e.link];
            && IsLive(s.store, link.instance, link.id)
            && Next(s, e).frames == s.frames + [Frame(e.link, link.instance, link.id)]
            && forall f :: 0 <= f < |s.frames| && s.frames[f].instance == link.instance ==> s.frames[f].link < e.link
  {
    ReachableKeepsInv(s);
    if e.Written? {
      DistinctInstances(s);
      AffectedAreLive(s, e.tables, e.affected);
      ChainAllKeeps(s, e.affected);
    } else if e.RecomputeEnds? {
      FramesBefore(s, e.link);
    }
    hide Inv, CountFinished, CountFrames, CountLinks, ChainAll;
  }

  /** The write found this instance live and reading one of its tables. */
  ghost predicate Hit(s: State, e: Event, instance: nat) {
    e.Written? && exists id :: id in s.store.entries && s.store.entries[id].instance == instance && Affects(e.tables, s.store.entries[id])
  }

  ghost function Hits(s: State, events: seq<Event>, instance: nat): nat
    requires Runs(s, events)
    decreases |events|
  {
    if events == [] then 0
    else (if Hit(s, events[0], instance) then 1 else 0) + Hits(Next(s, events[0]), events[1..], instance)
  }

  lemma {:induction false} StatusKeepsCount(links: seq<Link>, l: nat, status: Status, instance: nat)
    requires l < |links|
    ensures CountLinks(SetStatus(links, l, status), instance) == CountLinks(links, instance)
  {
    var n := |links| - 1;
    if l < n {
      assert SetStatus(links, l, status)[..n] == SetStatus(links[..n], l, status);
      StatusKeepsCount(links[..n], l, status, instance);
    } else {
      assert SetStatus(links, l, status)[..n] == links[..n];
    }
  }

  /** Each write chains one recompute onto every instance it hits; nothing else adds one. */
  lemma LinksCountHits(s: State, e: Event, instance: nat)
    requires Inv(s) && Happens(s, e)
    ensures CountLinks(Next(s, e).links, instance) == CountLinks(s.links, instance) + if Hit(s, e, instance) then 1 else 0
  {
    if e.Written? {
      AffectedAreLive(s, e.tables, e.affected);
      ChainAllKeeps(s, e.affected);
      hide Inv, CountLinks, ChainAll, Affects, ListsAffected;
      if Includes(e.affected, instance) {
        var i :| 0 <= i < |e.affected| && e.affected[i].instance == instance;
        assert e.affected[i].id in s.store.entries;
      }
    } else if e.LinkStarts? {
      StatusKeepsCount(s.links, e.link, Begin(s, e.link).links[e.link].status, instance);
    } else if e.RecomputeEnds? {
      StatusKeepsCount(s.links, e.link, Finished, instance);
    }
  }

  lemma {:induction false} RunCountsHits(s: State, events: seq<Event>, instance: nat)
    requires Inv(s) && Runs(s, events)
    ensures CountLinks(Take(s, events).links, instance) == CountLinks(s.links, instance) + Hits(s, events, instance)
    decreases |events|
  {
    hide Inv, Happens, Next, CountLinks, Hit;
    if events != [] {
      StepKeepsInv(s, events[0]);
      LinksCountHits(s, events[0], instance);
      RunCountsHits(Next(s, events[0]), events[1..], instance);
    }
  }

  lemma {:induction false} AllFinished(links: seq<Link>, instance: nat)
    requires forall l :: 0 <= l < |links| && links[l].instance == instance ==> links[l].status == Finished
    ensures CountFinished(links, instance) == CountLinks(links, instance)
  {
    if links != [] {
      AllFinished(links[..|links| - 1], instance);
    }
  }

  /**
   * In every run, an entry that is live at the end and whose chain has drained has had exactly one
   * frame for each write that hit it, failed recomputes included.
   */
  lemma OneFramePerHit(events: seq<Event>, id: string)
    requires Runs(Fresh(), events)
    requires var s := Take(Fresh(), events);
             id in s.store.entries && forall l :: 0 <= l < |s.links| && s.links[l].instance == s.store.entries[id].instance ==> s.links[l].status == Finished
    ensures var s := Take(Fresh(), events);
            CountFrames(s.frames, s.store.entries[id].instance) == Hits(Fresh(), events, s.store.entries[id].instance)
  {
    RunKeepsInv(Fresh(), events);
    var s := Take(Fresh(), events);
    hide Next, Happens, Ordered, Chained, Tailed, Instances, InOrder;
    AllFinished(s.links, s.store.entries[id].instance);
    RunCountsHits(Fresh(), events, s.store.entries[id].instance);
  }

  // ---------------------------------------------------------------------------------------
  // What an entry watches
  // ---------------------------------------------------------------------------------------

  /**
   * An entry as the events leave it: made by its registration, its tables replaced by those of each
   * recompute of its instance that succeeds while it is live, and by nothing else.
   */
  ghost function Kept(s: State, e: Event, instance: nat, kept: Option<Entry>): Option<Entry>
    requires Happens(s, e)
  {
    match e
    case Register(owner, id, path, args, tables) =>
      if s.store.instances == instance then Some(Entry(instance, owner, id, path, args, tables)) else kept
    case RecomputeEnds(l, tablesRead) =>
      if s.links[l].instance == instance && IsLive(s.store, instance, s.links[l].id) && tablesRead.Some? && kept.Some?
      then Some(kept.value.(tables := tablesRead.value)) else kept
    case _ => kept
  }

  ghost function KeptOver(s: State, events: seq<Event>, instance: nat, kept: Option<Entry>): Option<Entry>
    requires Runs(s, events)
    decreases |events|
  {
    if events == [] then kept else KeptOver(Next(s, events[0]), events[1..], instance, Kept(s, events[0], instance, kept))
  }

  /** The store's entry of an instance, if it is live under this id. */
  function Held(s: State, instance: nat, id: string): Option<Entry> {
    if IsLive(s.store, instance, id) then Some(s.store.entries[id]) else None
  }

  /** An instance that was made and is not live never is again. */
  lemma DeadStaysDead(s: State, e: Event, instance: nat, id: string)
    requires Inv(s) && Happens(s, e) && instance < s.store.instances && !IsLive(s.store, instance, id)
    ensures instance < Next(s, e).store.instances && !IsLive(Next(s, e).store, instance, id)
  {
    if e.Written? {
      AffectedAreLive(s, e.tables, e.affected);
      ChainAllKeeps(s, e.affected);
    }
    hide Inv, ChainAll, ListsAffected;
  }

  lemma {:induction false} DeadForGood(s: State, events: seq<Event>, instance: nat, id: string)
    requires Inv(s) && Runs(s, events) && instance < s.store.instances && !IsLive(s.store, instance, id)
    ensures !IsLive(Take(s, events).store, instance, id)
    decreases |events|
  {
    hide Inv, Next, Happens;
    if events != [] {
      StepKeepsInv(s, events[0]);
      DeadStaysDead(s, events[0], instance, id);
      DeadForGood(Next(s, events[0]), events[1..], instance, id);
    }
  }

  /** One event leaves a live entry as `Kept` says. */
  lemma StepKeepsEntry(s: State, e: Event, instance: nat, id: string)
    requires Inv(s) && Happens(s, e)
    ensures IsLive(Next(s, e).store, instance, id) || instance >= Next(s, e).store.instances ==>
              Held(Next(s, e), instance, id) == Kept(s, e, instance, Held(s, instance, id))
  {
    KnownInstances(s);
    hide Inv, ChainAll, ListsAffected;
    if e.Written? {
      WriteKeepsStore(s, e);
      hide Next, Happens;
    } else {
      hide IsLive;
      LiveFacts(s.store, instance, id);
      LiveFacts(Next(s, e).store, instance, id);
      if e.RecomputeEnds? {
        LiveFacts(s.store, instance, s.links[e.link].id);
      }
    }
  }

  lemma LiveFacts(store: Store, instance: nat, id: string)
    ensures IsLive(store, instance, id) <==> id in store.entries && store.entries[id].instance == instance
  {}

  lemma WriteKeepsStore(s: State, e: Event)
    requires Inv(s) && Happens(s, e) && e.Written?
    ensures Next(s, e).store == s.store
  {
    AffectedAreLive(s, e.tables, e.affected);
    ChainAllKeeps(s, e.affected);
  }

  lemma KnownInstances(s: State)
    requires Inv(s)
    ensures forall id :: id in s.store.entries ==> s.store.entries[id].id == id && s.store.entries[id].instance < s.store.instances
    ensures forall l :: 0 <= l < |s.links| ==> s.links[l].instance < s.store.instances
    ensures forall i, j :: i in s.store.entries && j in s.store.entries && s.store.entries[i].instance == s.store.entries[j].instance ==> i == j
    ensures forall l, id :: 0 <= l < |s.links| && id in s.store.entries && s.store.entries[id].instance == s.links[l].instance ==> s.links[l].id == id
  {}

  lemma {:induction false} RunKeepsEntry(s: State, events: seq<Event>, instance: nat, id: string)
    requires Inv(s) && Runs(s, events) && IsLive(Take(s, events).store, instance, id)
    ensures Held(Take(s, events), instance, id) == KeptOver(s, events, instance, Held(s, instance, id))
    decreases |events|
  {
    hide Inv, Next, Happens, Kept, IsLive;
    if events != [] {
      var next := Next(s, events[0]);
      StepKeepsInv(s, events[0]);
      if !IsLive(next.store, instance, id) && instance < next.store.instances {
        DeadForGood(next, events[1..], instance, id);
      }
      StepKeepsEntry(s, events[0], instance, id);
      RunKeepsEntry(next, events[1..], instance, id);
    }
  }

  /**
   * In every run a live entry is as it was registered, except that it watches the tables of the last
   * recompute of its instance that succeeded: failed recomputes and those of dead instances leave it alone.
   */
  lemma EntryWatchesWhatItReadLast(events: seq<Event>, id: string)
    requires Runs(Fresh(), events) && id in Take(Fresh(), events).store.entries
    ensures var e := Take(Fresh(), events).store.entries[id];
            KeptOver(Fresh(), events, e.instance, None) == Some(e)
  {
    hide Next, Happens, KeptOver;
    RunKeepsEntry(Fresh(), events, Take(Fresh(), events).store.entries[id].instance, id);
  }

  /** Hence a write hits a live entry exactly if it writes a table that entry read last. */
  lemma HitIffReadLast(events: seq<Event>, id: string, tables: set<string>, affected: seq<Entry>)
    requires Runs(Fresh(), events) && id in Take(Fresh(), events).store.entries
    ensures var s := Take(Fresh(), events);
            var kept := KeptOver(Fresh(), events, s.store.entries[id].instance, None);
            kept.Some?
            && (Hit(s, Written(tables, affected), s.store.entries[id].instance) <==> exists table :: table in tables && table in kept.value.tables)
  {
    hide Next, Happens, KeptOver;
    EntryWatchesWhatItReadLast(events, id);
    RunKeepsInv(Fresh(), events);
    KnownInstances(Take(Fresh(), events));
    hide Inv;
    var s := Take(Fresh(), events);
    assert Affects(tables, s.store.entries[id]) <==> exists table :: table in tables && table in s.store.entries[id].tables;
  }

  lemma {:induction false} FirstUnsettled(links: seq<Link>, l: nat) returns (first: nat)
    requires l < |links| && links[l].status != Finished
    ensures first <= l && links[first].instance == links[l].instance && links[first].status != Finished
    ensures forall i :: 0 <= i < first && links[i].instance == links[l].instance ==> links[i].status == Finished
    decreases l
  {
    if i: nat :| i < l && links[i].instance == links[l].instance && links[i].status != Finished {
      first := FirstUnsettled(links, i);
    } else {
      first := l;
    }
  }

  /** Every chain moves on its own: one with work left has a link in flight or one that may start, whatever other chains do. */
  lemma ChainsNeverBlockEachOther(s: State, l: nat)
    requires Reachable(s) && l < |s.links| && s.links[l].status != Finished
    ensures exists m: nat :: m < |s.links| && s.links[m].instance == s.links[l].instance && (s.links[m].status == Running || Happens(s, LinkStarts(m)))
  {
    ReachableKeepsInv(s);
    var m := FirstUnsettled(s.links, l);
    if s.links[m].status == Waiting && s.links[m].prev.Some? {
      var p := s.links[m].prev.value;
      assert s.links[p].instance == s.links[m].instance && p < m;
    }
    assert s.links[m].status == Running || Happens(s, LinkStarts(m));
  }

  // ---------------------------------------------------------------------------------------
  // The router
  // ---------------------------------------------------------------------------------------

  class Router {
    const store: InMemoryStore
    var links: seq<Link>
    var tails: map<nat, nat>
    var frames: seq<Frame>

    ghost function Model(): State
      reads this, store
    {
      State(store.Model(), links, tails, frames)
    }

    constructor (store: InMemoryStore)
      ensures this.store == store && links == [] && tails == map[] && frames == []
    {
      this.store := store;
      links, tails, frames := [], map[], [];
    }

    /** Chain a recompute for every affected entry, before anything else can run. */
    method OnInvalidation(tablesWritten: set<string>) returns (affected: seq<Entry>)
      requires forall i, j :: i in store.entries && j in store.entries && store.entries[i] == store.entries[j] ==> i == j
      modifies this
      ensures Happens(old(Model()), Written(tablesWritten, affected))
      ensures Model() == Next(old(Model()), Written(tablesWritten, affected))
    {
      affected := store.GetAffected(tablesWritten);
      ghost var start := Model();
      for i := 0 to |affected|
        invariant Model() == ChainAll(start, affected[..i])
      {
        assert affected[..i + 1][..i] == affected[..i];
        var entry := affected[i];
        var prev := if entry.instance in tails then Some(tails[entry.instance]) else None;
        var next := |links|;
        links := links + [Link(entry.instance, entry.id, prev, Waiting)];
        tails := tails[entry.instance := next];
      }
      assert affected[..|affected|] == affected;
    }

    /** `processOne` up to its `await`. */
    method StartLink(l: nat)
      requires l < |links|
      modifies this`links
      ensures Model() == Begin(old(Model()), l)
    {
      var link := links[l];
      var held := store.Get(link.id);
      if held.None? || held.value.instance != link.instance {
        links := links[l := link.(status := Finished)];
        return;
      }
      links := links[l := link.(status := Running)];
    }

    /** `processOne` after its `await`; `None` when the recompute threw. */
    method FinishRecompute(l: nat, tablesRead: Option<set<string>>)
      requires l < |links|
      modifies this`links, this`frames, store`entries
      ensures Model() == End(old(Model()), l, tablesRead)
    {
      var link := links[l];
      links := links[l := link.(status := Finished)];
      var held := store.Get(link.id);
      if held.None? || held.value.instance != link.instance {
        return;
      }
      if tablesRead.Some? {
        store.SetTables(link.id, tablesRead.value);
      }
      frames := frames + [Frame(l, link.instance, link.id)];
    }

    method FinallyLink(l: nat)
      requires l < |links|
      modifies this`tails
      ensures Model() == Cleanup(old(Model()), l)
    {
      var instance := links[l].instance;
      if instance in tails && tails[instance] == l {
        tails := tails - {instance};
      }
    }
  }
}
