/**
 * Publishing a whole draft (packages/server/src/draft-publication.ts, `applyReviewedChanges`):
 * the canonical tables end as the draft view read before publication, by way of states that
 * each satisfy the foreign keys.
 */
module PublishChanges {
  import opened Common
  import opened DraftOverlay
  import opened DraftWrites
  import opened PublishOrder
  import opened PublishSafety
  import opened CanonicalWrites
  import opened Publication
  import StepGraph

  // ---------------------------------------------------------------------------------------
  // Progress of one target
  // ---------------------------------------------------------------------------------------

  /** The canonical side as a publication finds it. */
  datatype Start = Start(schemas: string -> Schema, rows: Rows, ledger: Ledger)

  ghost predicate Reviewed(start: Start, t: Target, change: Change) {
    && StillAnchored(start.schemas(t.table), start.rows, start.ledger, t, change)
    && Reviewable(change)
    && (t in start.rows ==> ValidRow(start.schemas(t.table), start.rows[t]))
  }

  /** The row and the ledger entry of a target part way through. */
  ghost predicate Reached(start: Start, rows: Rows, ledger: Ledger, t: Target, change: Change, removed: bool, written: bool) {
    var schema := start.schemas(t.table);
    && Lookup(rows, t) == (if written then Published(schema, start.rows, t, change) else if removed then None else Lookup(start.rows, t))
    && Lookup(ledger, t) == EntryReached(schema, Lookup(start.ledger, t), change, removed, written)
  }

  /** A removed row leaves its anchored revision in the ledger, and an insert takes the token after it; an update leaves the entry alone. */
  function EntryReached(schema: Schema, entry: Option<int>, change: Change, removed: bool, written: bool): Option<int> {
    if schema.revision.None? then entry
    else if written then
      if change.operation == Insert && change.baseRevision.Some? then Some(change.baseRevision.value + 1) else entry
    else if removed then change.baseRevision
    else entry
  }

  /** Whether a step writes: an update that proposes nothing does not. */
  predicate StepWrites(schema: Schema, change: Change, kind: StepKind) {
    kind == Remove || change.operation == Insert || ReviewedValues(schema, change) != map[]
  }

  function StepTags(start: Start, changes: map<Target, Change>, inspected: seq<Target>, s: Step): set<string> {
    if s.change < |inspected| && inspected[s.change] in changes
       && StepWrites(start.schemas(inspected[s.change].table), changes[inspected[s.change]], s.kind)
    then {inspected[s.change].table} else {}
  }

  /** The tables the executed steps have written. */
  function TagsOf(start: Start, changes: map<Target, Change>, inspected: seq<Target>, steps: seq<Step>): set<string> {
    if steps == [] then {}
    else TagsOf(start, changes, inspected, steps[..|steps| - 1]) + StepTags(start, changes, inspected, steps[|steps| - 1])
  }

  /** The tables a publication writes: those of its reviewable changes, updates that propose nothing aside. */
  function WrittenTables(schemas: string -> Schema, changes: map<Target, Change>): set<string> {
    set t | t in changes && Reviewable(changes[t])
            && (changes[t].operation != Update || ReviewedValues(schemas(t.table), changes[t]) != map[]) :: t.table
  }

  method ApplyReviewedChangeStep(db: TrackedDb, t: Target, change: Change, kind: StepKind, ghost removed: bool, ghost start: Start) returns (ok: bool)
    requires db.Valid() && start.schemas == db.schemas && Reviewed(start, t, change)
    requires Reached(start, db.rows, db.ledger, t, change, removed, false)
    requires StepNeeded(change.operation, change.baseExists, kind)
    requires removed <==> kind == Write && StepNeeded(change.operation, change.baseExists, Remove)
    modifies db
    ensures ok <==> kind == Remove || !Unpublishable(db.schemas(t.table), change)
    ensures db.Valid()
    ensures ok ==> Reached(start, db.rows, db.ledger, t, change, kind == Remove, kind == Write)
    ensures forall u :: u != t ==> Lookup(db.rows, u) == Lookup(old(db.rows), u) || !ok
    ensures forall u :: u != t ==> Lookup(db.ledger, u) == Lookup(old(db.ledger), u)
    ensures ok ==> db.tablesWritten == old(db.tablesWritten) + if StepWrites(db.schemas(t.table), change, kind) then {t.table} else {}
  {
    hide Unpublishable, Effective;
    match kind
    case Remove =>
      RemoveReviewedRow(db, t);
      ok := true;
    case Write =>
      ReviewedFacts(db.schemas(t.table), start.rows, start.ledger, t, change);
      if change.operation == Insert {
        ok := InsertReviewedRow(db, t, change, start.rows, start.ledger);
      } else {
        ok := UpdateReviewedRow(db, t, change, start.rows, start.ledger);
      }
  }

  // ---------------------------------------------------------------------------------------
  // Progress of all targets
  // ---------------------------------------------------------------------------------------

  /** Every target is as far along as the executed steps say, and no other row has moved. */
  ghost predicate Progress(start: Start, rows: Rows, ledger: Ledger, changes: map<Target, Change>, inspected: seq<Target>, done: set<Step>)
    requires forall i :: 0 <= i < |inspected| ==> inspected[i] in changes
  {
    && (forall i: nat :: i < |inspected| ==>
          Reached(start, rows, ledger, inspected[i], changes[inspected[i]], Step(i, Remove) in done, Step(i, Write) in done))
    && (forall t :: t !in inspected ==> Lookup(rows, t) == Lookup(start.rows, t) && Lookup(ledger, t) == Lookup(start.ledger, t))
  }

  /** The reviewable changes in the order they are stored, each still anchored. */
  ghost predicate Publishable(start: Start, changes: map<Target, Change>, inspected: seq<Target>) {
    && (forall i, j :: 0 <= i < j < |inspected| ==> inspected[i] != inspected[j])
    && (forall t :: t in inspected <==> t in changes && Reviewable(changes[t]))
    && (forall t :: t in inspected ==> Reviewed(start, t, changes[t]))
    && (forall t :: t in changes ==> (changes[t].baseExists <==> t in start.rows))
  }

  ghost function Plan(start: Start, changes: map<Target, Change>, inspected: seq<Target>): seq<Resolved>
    requires forall i :: 0 <= i < |inspected| ==> inspected[i] in changes
  {
    ResolveAll(start.schemas, start.rows, changes, inspected)
  }

  lemma PlanDescribes(start: Start, changes: map<Target, Change>, inspected: seq<Target>)
    requires Publishable(start, changes, inspected)
    ensures Describes(Plan(start, changes, inspected), Whole(start.schemas, start.rows))
  {
    hide Effective, StillAnchored, WholeRow;
    var plan := Plan(start, changes, inspected);
    forall i | 0 <= i < |plan|
      ensures WellFormed(plan[i]) && plan[i].original == Lookup(Whole(start.schemas, start.rows), plan[i].target)
    {
      var t := inspected[i];
      ResolvedRow(start.schemas(t.table), start.rows, start.ledger, t, changes[t]);
    }
  }

  lemma StateIsUnique(db: Database, changes: seq<Resolved>, done: set<Step>, a: Database, b: Database)
    requires IsStateAfter(db, changes, done, a) && IsStateAfter(db, changes, done, b)
    ensures a == b
  {
    hide RowAfter;
    forall t
      ensures Lookup(a, t) == Lookup(b, t)
    {
      if !Untouched(changes, t) {
        var i :| 0 <= i < |changes| && changes[i].target == t;
        assert Lookup(a, changes[i].target) == Lookup(b, changes[i].target);
      }
    }
    SameMap(a, b);
  }

  lemma ProgressIsState(start: Start, rows: Rows, ledger: Ledger, changes: map<Target, Change>, inspected: seq<Target>, done: set<Step>)
    requires Publishable(start, changes, inspected)
    requires Progress(start, rows, ledger, changes, inspected, done)
    ensures IsStateAfter(Whole(start.schemas, start.rows), Plan(start, changes, inspected), done, Whole(start.schemas, rows))
  {
    var plan, db := Plan(start, changes, inspected), Whole(start.schemas, start.rows);
    var whole := Whole(start.schemas, rows);
    forall i | 0 <= i < |plan|
      ensures Lookup(whole, plan[i].target) == RowAfter(plan[i], i, done)
    {
      ProgressOfTarget(start, rows, ledger, changes, inspected, done, i);
    }
    forall t | Untouched(plan, t)
      ensures Lookup(whole, t) == Lookup(db, t)
    {
      assert forall i :: 0 <= i < |inspected| ==> plan[i].target == inspected[i];
      assert Lookup(rows, t) == Lookup(start.rows, t);
    }
  }

  /** A state that has made the progress of `prefix` is the one it reaches. */
  lemma ProgressIsRun(start: Start, rows: Rows, ledger: Ledger, changes: map<Target, Change>, inspected: seq<Target>, prefix: seq<Step>)
    requires Publishable(start, changes, inspected)
    requires Progress(start, rows, ledger, changes, inspected, DoneBy(prefix))
    requires Known(Plan(start, changes, inspected), prefix) && RemovesFirst(prefix)
    ensures Whole(start.schemas, rows) == Run(Whole(start.schemas, start.rows), Plan(start, changes, inspected), prefix)
  {
    hide Progress, Plan, Whole, IsStateAfter, Describes, RemovesFirst, Reviewed;
    var plan, db := Plan(start, changes, inspected), Whole(start.schemas, start.rows);
    PlanDescribes(start, changes, inspected);
    RunReachesState(db, plan, prefix);
    ProgressIsState(start, rows, ledger, changes, inspected, DoneBy(prefix));
    StateIsUnique(db, plan, DoneBy(prefix), Run(db, plan, prefix), Whole(start.schemas, rows));
  }

  lemma ProgressOfTarget(start: Start, rows: Rows, ledger: Ledger, changes: map<Target, Change>, inspected: seq<Target>, done: set<Step>, i: nat)
    requires Publishable(start, changes, inspected) && i < |inspected|
    requires Progress(start, rows, ledger, changes, inspected, done)
    ensures Lookup(Whole(start.schemas, rows), inspected[i]) == RowAfter(Plan(start, changes, inspected)[i], i, done)
  {
    var t := inspected[i];
    hide Effective, StillAnchored, WholeRow, OriginalRow;
    ResolvedRow(start.schemas(t.table), start.rows, start.ledger, t, changes[t]);
    assert Reached(start, rows, ledger, t, changes[t], Step(i, Remove) in done, Step(i, Write) in done);
  }

  // ---------------------------------------------------------------------------------------
  // The publication
  // ---------------------------------------------------------------------------------------

  lemma StartsHere(start: Start, changes: map<Target, Change>, inspected: seq<Target>)
    requires forall i :: 0 <= i < |inspected| ==> inspected[i] in changes
    ensures Progress(start, start.rows, start.ledger, changes, inspected, {})
  {}

  lemma StepAdvances(start: Start, rows: Rows, ledger: Ledger, rows': Rows, ledger': Ledger,
                     changes: map<Target, Change>, inspected: seq<Target>, done: set<Step>, s: Step)
    requires Publishable(start, changes, inspected) && s.change < |inspected|
    requires Progress(start, rows, ledger, changes, inspected, done)
    requires Step(s.change, Write) !in done
    requires var t := inspected[s.change];
             && Reached(start, rows', ledger', t, changes[t], s.kind == Remove, s.kind == Write)
             && forall u :: u != t ==> Lookup(rows', u) == Lookup(rows, u) && Lookup(ledger', u) == Lookup(ledger, u)
    ensures Progress(start, rows', ledger', changes, inspected, done + {s})
  {
    hide Reviewed;
    forall i: nat | i < |inspected|
      ensures Reached(start, rows', ledger', inspected[i], changes[inspected[i]], Step(i, Remove) in done + {s}, Step(i, Write) in done + {s})
    {
      if i != s.change {
        assert inspected[i] != inspected[s.change];
        assert Reached(start, rows, ledger, inspected[i], changes[inspected[i]], Step(i, Remove) in done, Step(i, Write) in done);
      }
    }
  }

  /** The ledger entry a published change leaves. */
  function EntryPublished(start: Start, t: Target, change: Change): Option<int> {
    EntryReached(start.schemas(t.table), Lookup(start.ledger, t), change, change.operation == Delete, change.operation != Delete)
  }

  /** With every step done, each target shows what the draft view showed. */
  lemma AllStepsPublish(start: Start, rows: Rows, ledger: Ledger, changes: map<Target, Change>, inspected: seq<Target>)
    requires Publishable(start, changes, inspected)
    requires Progress(start, rows, ledger, changes, inspected, AllSteps(Plan(start, changes, inspected)))
    ensures forall t :: Lookup(rows, t) == Effective(start.schemas(t.table), Lookup(start.rows, t), Lookup(changes, t))
    ensures forall t :: Lookup(ledger, t) == if t in inspected then EntryPublished(start, t, changes[t]) else Lookup(start.ledger, t)
  {
    hide Reviewed;
    var plan := Plan(start, changes, inspected);
    forall t
      ensures Lookup(rows, t) == Effective(start.schemas(t.table), Lookup(start.rows, t), Lookup(changes, t))
      ensures Lookup(ledger, t) == if t in inspected then EntryPublished(start, t, changes[t]) else Lookup(start.ledger, t)
    {
      if t in inspected {
        var i: nat :| i < |inspected| && inspected[i] == t;
        assert plan[i].operation == changes[t].operation;
        assert Step(i, Write) in AllSteps(plan) <==> changes[t].operation != Delete;
        assert changes[t].operation == Delete ==> Step(i, Remove) in AllSteps(plan);
      }
    }
  }

  lemma PlanAt(start: Start, changes: map<Target, Change>, inspected: seq<Target>, i: nat)
    requires i < |inspected| && forall j :: 0 <= j < |inspected| ==> inspected[j] in changes
    ensures |Plan(start, changes, inspected)| == |inspected|
    ensures var c := Plan(start, changes, inspected)[i];
            && c.target == inspected[i]
            && forall kind :: HasStep(c, kind) <==> StepNeeded(changes[inspected[i]].operation, changes[inspected[i]].baseExists, kind)
  {
    assert Plan(start, changes, inspected)[i] == Resolve(start.schemas(inspected[i].table), start.rows, inspected[i], changes[inspected[i]]);
  }

  /** The next step has not run, and a replaced row has been removed before it is written. */
  lemma NextStepIsReady(start: Start, changes: map<Target, Change>, inspected: seq<Target>, fks: seq<ForeignKey>, schedule: seq<Step>, k: nat)
    requires forall i :: 0 <= i < |inspected| ==> inspected[i] in changes
    requires Schedule(Plan(start, changes, inspected), fks, schedule) && k < |schedule|
    ensures var s := schedule[k];
            && s.change < |inspected|
            && var change := changes[inspected[s.change]];
            && StepNeeded(change.operation, change.baseExists, s.kind)
            && Step(s.change, Write) !in DoneBy(schedule[..k])
            && (Step(s.change, Remove) in DoneBy(schedule[..k]) <==> s.kind == Write && StepNeeded(change.operation, change.baseExists, Remove))
            && DoneBy(schedule[..k + 1]) == DoneBy(schedule[..k]) + {s}
  {
    var plan, s := Plan(start, changes, inspected), schedule[k];
    assert s in schedule && IsStep(plan, s);
    assert |plan| == |inspected|;
    PlanAt(start, changes, inspected, s.change);
    EarlierSteps(plan, fks, schedule, k);
  }

  lemma EarlierSteps(plan: seq<Resolved>, fks: seq<ForeignKey>, schedule: seq<Step>, k: nat)
    requires Schedule(plan, fks, schedule) && k < |schedule| && IsStep(plan, schedule[k])
    ensures var s := schedule[k];
            && Step(s.change, Write) !in DoneBy(schedule[..k])
            && (Step(s.change, Remove) in DoneBy(schedule[..k]) <==> s.kind == Write && HasStep(plan[s.change], Remove))
  {
    var s, prefix := schedule[k], schedule[..k];
    var remove, write := Step(s.change, Remove), Step(s.change, Write);
    if HasStep(plan[s.change], Remove) {
      assert IsStep(plan, remove) && remove in schedule;
      var r :| 0 <= r < |schedule| && schedule[r] == remove;
      if HasStep(plan[s.change], Write) {
        assert IsStep(plan, write) && write in schedule;
        var w :| 0 <= w < |schedule| && schedule[w] == write;
        assert (remove, write) in ReplaceEdge(plan, s.change);
        assert MustPrecede(plan, fks, schedule[r], schedule[w]);
        assert r < w;
        assert s.kind == Write ==> w == k && prefix[r] == remove;
      }
    } else {
      assert !IsStep(plan, remove) && remove !in schedule;
    }
    forall j | 0 <= j < |prefix|
      ensures prefix[j] != write && (s.kind == Remove ==> prefix[j] != remove)
    {
      assert prefix[j] == schedule[j] && schedule[j] in schedule && schedule[j] != schedule[k];
    }
  }

  /** The databases between the steps of a schedule. */
  ghost predicate Passed(plan: seq<Resolved>, fks: seq<ForeignKey>, schedule: seq<Step>, states: seq<Database>) {
    && Schedule(plan, fks, schedule)
    && (forall i :: 0 <= i < |schedule| ==> schedule[i].change < |plan|)
    && |states| == |schedule| + 1
    && forall k :: 0 <= k <= |schedule| ==> states[k] == Run(states[0], plan, schedule[..k])
  }

  /** Whether a target's write step can reach the reviewed revision. */
  ghost predicate Blocks(start: Start, changes: map<Target, Change>, inspected: seq<Target>, s: Step) {
    && s.change < |inspected| && inspected[s.change] in changes
    && s.kind == Write
    && Unpublishable(start.schemas(inspected[s.change].table), changes[inspected[s.change]])
  }

  lemma BlockedTarget(start: Start, changes: map<Target, Change>, inspected: seq<Target>, fks: seq<ForeignKey>, schedule: seq<Step>)
    requires forall i :: 0 <= i < |inspected| ==> inspected[i] in changes
    requires Schedule(Plan(start, changes, inspected), fks, schedule)
    requires forall k :: 0 <= k < |schedule| ==> !Blocks(start, changes, inspected, schedule[k])
    ensures forall t :: t in inspected ==> !Unpublishable(start.schemas(t.table), changes[t])
  {
    hide Schedule;
    forall t | t in inspected
      ensures !Unpublishable(start.schemas(t.table), changes[t])
    {
      if changes[t].operation != Delete {
        var i: nat :| i < |inspected| && inspected[i] == t;
        NeededIsScheduled(start, changes, inspected, fks, schedule, Step(i, Write));
        var k :| 0 <= k < |schedule| && schedule[k] == Step(i, Write);
        assert !Blocks(start, changes, inspected, schedule[k]);
      }
    }
  }

  lemma AllDone(plan: seq<Resolved>, fks: seq<ForeignKey>, schedule: seq<Step>)
    requires Schedule(plan, fks, schedule)
    ensures DoneBy(schedule[..|schedule|]) == AllSteps(plan)
  {
    PrefixIsClosed(plan, fks, schedule, |schedule|);
  }

  method PublishStep(db: TrackedDb, changes: map<Target, Change>, ghost fks: seq<ForeignKey>, inspected: seq<Target>,
                     schedule: seq<Step>, k: nat, ghost start: Start)
    returns (ok: bool)
    requires db.Valid() && start.schemas == db.schemas && Publishable(start, changes, inspected)
    requires Schedule(Plan(start, changes, inspected), fks, schedule) && k < |schedule|
    requires forall i :: 0 <= i < |schedule| ==> schedule[i].change < |Plan(start, changes, inspected)|
    requires Progress(start, db.rows, db.ledger, changes, inspected, DoneBy(schedule[..k]))
    modifies db
    ensures schedule[k].change < |inspected|
    ensures ok <==> !Blocks(start, changes, inspected, schedule[k])
    ensures ok ==> db.Valid() && Progress(start, db.rows, db.ledger, changes, inspected, DoneBy(schedule[..k + 1]))
    ensures ok ==> Whole(db.schemas, db.rows) == Run(Whole(start.schemas, start.rows), Plan(start, changes, inspected), schedule[..k + 1])
    ensures ok ==> db.tablesWritten == old(db.tablesWritten) + StepTags(start, changes, inspected, schedule[k])
  {
    hide Effective, Unpublishable, Reached, Reviewed, Progress, Schedule, Plan, Whole, Run, DoneBy, StepNeeded, StepWrites;
    var s := schedule[k];
    NextStepIsReady(start, changes, inspected, fks, schedule, k);
    var t := inspected[s.change];
    ghost var done := DoneBy(schedule[..k]);
    ghost var rows, ledger := db.rows, db.ledger;
    ReachedHere(start, rows, ledger, changes, inspected, done, s);
    ok := ApplyReviewedChangeStep(db, t, changes[t], s.kind, Step(s.change, Remove) in done, start);
    if ok {
      StepAdvances(start, rows, ledger, db.rows, db.ledger, changes, inspected, done, s);
      PrefixIsClosed(Plan(start, changes, inspected), fks, schedule, k + 1);
      ProgressIsRun(start, db.rows, db.ledger, changes, inspected, schedule[..k + 1]);
    }
  }

  /**
   * Publication succeeds exactly when the order exists and no change is unpublishable, and then
   * the canonical tables are the draft view. A failure rolls the surrounding transaction back.
   * `states` are the databases between two steps.
   */
  method ApplyReviewedChanges(db: TrackedDb, changes: map<Target, Change>, fks: seq<ForeignKey>, inspected: seq<Target>)
    returns (outcome: Result<(), PublishError>, ghost schedule: seq<Step>, ghost states: seq<Database>)
    requires db.Valid() && Publishable(Start(db.schemas, db.rows, db.ledger), changes, inspected)
    modifies db
    ensures var plan := Plan(old(Start(db.schemas, db.rows, db.ledger)), changes, inspected);
            && (outcome == Err(ForeignKeyCycle) <==> StepGraph.Cyclic(DependencyEdges(plan, fks)))
            && (outcome.Ok? ==> Passed(plan, fks, schedule, states))
    ensures outcome.Ok? ==> forall t :: t in inspected ==> !Unpublishable(db.schemas(t.table), changes[t])
    ensures outcome.Err? && outcome.error.Drift? ==>
              outcome.error.target in inspected
              && Unpublishable(db.schemas(outcome.error.target.table), changes[outcome.error.target])
    ensures outcome.Ok? ==> db.Valid()
    ensures outcome.Ok? ==>
              forall t :: Lookup(db.rows, t) == Effective(db.schemas(t.table), Lookup(old(db.rows), t), Lookup(changes, t))
    ensures outcome.Ok? ==>
              forall t :: Lookup(db.ledger, t)
                == if t in inspected then EntryPublished(old(Start(db.schemas, db.rows, db.ledger)), t, changes[t]) else Lookup(old(db.ledger), t)
    ensures outcome.Ok? ==> db.tablesWritten == old(db.tablesWritten) + WrittenTables(db.schemas, changes)
    ensures outcome.Ok? ==> states[0] == Whole(db.schemas, old(db.rows)) && states[|states| - 1] == Whole(db.schemas, db.rows)
  {
    hide Effective, Unpublishable, Reached, Reviewed, Progress, StepGraph.Cyclic, Schedule, Plan, Whole, Run, Describes, DoneBy,
      DependencyEdges, ResolveAll, AllSteps, TrackedDb.Valid, StepGraph.OrdersAll, StepGraph.Greedy, StepsOf, Arranged,
      EntryPublished, TagsOf, StepTags, WrittenTables;
    ghost var start := Start(db.schemas, db.rows, db.ledger);
    schedule, states := [], [Whole(db.schemas, db.rows)];
    var plan := ResolveAll(db.schemas, db.rows, changes, inspected);
    PlanIs(start, changes, inspected);
    var order := OrderReviewedChangeSteps(plan, fks);
    if order.None? {
      return Err(ForeignKeyCycle), schedule, states;
    }
    schedule := order.value;
    StartsHere(start, changes, inspected);
    ScheduleFits(plan, fks, schedule);
    NothingRun(states[0], plan, schedule);
    NoStepTags(start, changes, inspected, schedule);
    for k := 0 to |order.value|
      invariant db.Valid()
      invariant Progress(start, db.rows, db.ledger, changes, inspected, DoneBy(schedule[..k]))
      invariant |states| == k + 1 && states[k] == Whole(db.schemas, db.rows) && states[0] == Whole(start.schemas, start.rows)
      invariant forall i :: 0 <= i < |schedule| ==> schedule[i].change < |plan|
      invariant forall i :: 0 <= i <= k ==> states[i] == Run(states[0], plan, schedule[..i])
      invariant forall i :: 0 <= i < k ==> !Blocks(start, changes, inspected, schedule[i])
      invariant db.tablesWritten == old(db.tablesWritten) + TagsOf(start, changes, inspected, schedule[..k])
    {
      var ok := PublishStep(db, changes, fks, inspected, order.value, k, start);
      if !ok {
        return Err(Drift(inspected[order.value[k].change])), schedule, states;
      }
      states := states + [Whole(db.schemas, db.rows)];
      NextStepTags(start, changes, inspected, schedule, k);
    }
    AllTags(start, changes, inspected, fks, schedule);
    AllDone(plan, fks, schedule);
    AllStepsPublish(start, db.rows, db.ledger, changes, inspected);
    BlockedTarget(start, changes, inspected, fks, schedule);
    outcome := Ok(());
  }

  lemma NoStepTags(start: Start, changes: map<Target, Change>, inspected: seq<Target>, schedule: seq<Step>)
    ensures TagsOf(start, changes, inspected, schedule[..0]) == {}
  {}

  lemma NextStepTags(start: Start, changes: map<Target, Change>, inspected: seq<Target>, schedule: seq<Step>, k: nat)
    requires k < |schedule|
    ensures TagsOf(start, changes, inspected, schedule[..k + 1])
         == TagsOf(start, changes, inspected, schedule[..k]) + StepTags(start, changes, inspected, schedule[k])
  {
    assert schedule[..k + 1][..k] == schedule[..k];
  }

  lemma {:induction false} InTags(start: Start, changes: map<Target, Change>, inspected: seq<Target>, steps: seq<Step>, table: string)
    ensures table in TagsOf(start, changes, inspected, steps) <==> exists s :: s in steps && table in StepTags(start, changes, inspected, s)
  {
    hide StepTags;
    if steps != [] {
      var init, last := steps[..|steps| - 1], steps[|steps| - 1];
      InTags(start, changes, inspected, init, table);
      assert steps == init + [last];
    }
  }

  /** Over the whole order the steps write exactly the tables of the changes that have something to write. */
  lemma AllTags(start: Start, changes: map<Target, Change>, inspected: seq<Target>, fks: seq<ForeignKey>, schedule: seq<Step>)
    requires Publishable(start, changes, inspected) && Schedule(Plan(start, changes, inspected), fks, schedule)
    ensures TagsOf(start, changes, inspected, schedule[..|schedule|]) == WrittenTables(start.schemas, changes)
  {
    hide Reviewed, ReviewedValues, Schedule;
    assert schedule[..|schedule|] == schedule;
    forall table
      ensures table in TagsOf(start, changes, inspected, schedule) <==> table in WrittenTables(start.schemas, changes)
    {
      InTags(start, changes, inspected, schedule, table);
      if s :| s in schedule && table in StepTags(start, changes, inspected, s) {
        ScheduledIsNeeded(start, changes, inspected, fks, schedule, s);
      }
      if t :| t in changes && Reviewable(changes[t]) && t.table == table
              && (changes[t].operation != Update || ReviewedValues(start.schemas(t.table), changes[t]) != map[]) {
        var i: nat :| i < |inspected| && inspected[i] == t;
        var s := Step(i, if changes[t].operation == Delete then Remove else Write);
        NeededIsScheduled(start, changes, inspected, fks, schedule, s);
        assert table in StepTags(start, changes, inspected, s);
      }
    }
  }

  lemma ScheduledIsNeeded(start: Start, changes: map<Target, Change>, inspected: seq<Target>, fks: seq<ForeignKey>, schedule: seq<Step>, s: Step)
    requires forall j :: 0 <= j < |inspected| ==> inspected[j] in changes
    requires Schedule(Plan(start, changes, inspected), fks, schedule) && s in schedule
    ensures s.change < |inspected|
    ensures var change := changes[inspected[s.change]]; StepNeeded(change.operation, change.baseExists, s.kind)
  {
    PlanIs(start, changes, inspected);
    assert IsStep(Plan(start, changes, inspected), s);
    PlanAt(start, changes, inspected, s.change);
  }

  lemma NeededIsScheduled(start: Start, changes: map<Target, Change>, inspected: seq<Target>, fks: seq<ForeignKey>, schedule: seq<Step>, s: Step)
    requires forall j :: 0 <= j < |inspected| ==> inspected[j] in changes
    requires Schedule(Plan(start, changes, inspected), fks, schedule) && s.change < |inspected|
    requires var change := changes[inspected[s.change]]; StepNeeded(change.operation, change.baseExists, s.kind)
    ensures s in schedule
  {
    PlanAt(start, changes, inspected, s.change);
    assert IsStep(Plan(start, changes, inspected), s);
  }

  lemma PlanIs(start: Start, changes: map<Target, Change>, inspected: seq<Target>)
    requires forall i :: 0 <= i < |inspected| ==> inspected[i] in changes
    ensures ResolveAll(start.schemas, start.rows, changes, inspected) == Plan(start, changes, inspected)
    ensures |Plan(start, changes, inspected)| == |inspected|
  {}

  lemma ScheduleFits(plan: seq<Resolved>, fks: seq<ForeignKey>, schedule: seq<Step>)
    requires Schedule(plan, fks, schedule)
    ensures forall i :: 0 <= i < |schedule| ==> schedule[i].change < |plan|
  {
    assert forall i :: 0 <= i < |schedule| ==> schedule[i] in schedule;
  }

  lemma NothingRun(db: Database, plan: seq<Resolved>, schedule: seq<Step>)
    ensures Run(db, plan, schedule[..0]) == db
    ensures DoneBy(schedule[..0]) == {}
  {}

  lemma ReachedHere(start: Start, rows: Rows, ledger: Ledger, changes: map<Target, Change>, inspected: seq<Target>, done: set<Step>, s: Step)
    requires Publishable(start, changes, inspected) && s.change < |inspected|
    requires Progress(start, rows, ledger, changes, inspected, done)
    requires Step(s.change, Write) !in done
    ensures var t := inspected[s.change];
            Reviewed(start, t, changes[t]) && Reached(start, rows, ledger, t, changes[t], Step(s.change, Remove) in done, false)
  {
    hide Reached, Reviewed;
  }

  /** Between any two steps of a publication the foreign key holds, exactly when kept references have kept parents. */
  lemma PublicationIsSafeIff(start: Start, changes: map<Target, Change>, inspected: seq<Target>, fks: seq<ForeignKey>, f: nat,
                             schedule: seq<Step>, states: seq<Database>)
    requires f < |fks| && Publishable(start, changes, inspected)
    requires Passed(Plan(start, changes, inspected), fks, schedule, states) && states[0] == Whole(start.schemas, start.rows)
    requires Satisfies(fks[f], states[0]) && Satisfies(fks[f], states[|states| - 1])
    requires forall k :: 0 <= k < |states| ==> UniqueParents(fks[f], states[k])
    ensures (forall k :: 0 <= k < |states| ==> Satisfies(fks[f], states[k]))
       <==> KeptReferencesHaveParents(fks[f], Plan(start, changes, inspected), states[0])
  {
    hide Schedule, Satisfies, UniqueParents, KeptReferencesHaveParents, Plan, Run, Reviewed;
    PlanDescribes(start, changes, inspected);
    assert schedule[..|schedule|] == schedule;
    forall k | 0 <= k <= |schedule|
      ensures UniqueParents(fks[f], Run(states[0], Plan(start, changes, inspected), schedule[..k]))
    {
      assert UniqueParents(fks[f], states[k]);
    }
    ScheduleIsSafeIff(fks, f, Plan(start, changes, inspected), states[0], schedule);
  }
}
