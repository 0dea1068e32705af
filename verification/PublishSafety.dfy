/**
 * Why the publication order is safe: with foreign keys checked after every step, each prefix of
 * the schedule satisfies them exactly when every child that keeps its reference throughout has a
 * parent no step takes away.
 */
module PublishSafety {
  import opened Common
  import opened DraftOverlay
  import opened PublishOrder

  // ---------------------------------------------------------------------------------------
  // Executing steps
  // ---------------------------------------------------------------------------------------

  /** What one step does to the canonical tables, `advanceReviewedRevision` included. */
  function Execute(db: Database, changes: seq<Resolved>, s: Step): Database
    requires s.change < |changes|
  {
    var c := changes[s.change];
    match s.kind
    case Remove => db - {c.target}
    case Write => if c.final.Some? then db[c.target := c.final.value] else db
  }

  ghost predicate Known(changes: seq<Resolved>, steps: seq<Step>) {
    forall i :: 0 <= i < |steps| ==> IsStep(changes, steps[i])
  }

  function Run(db: Database, changes: seq<Resolved>, steps: seq<Step>): Database
    requires forall i :: 0 <= i < |steps| ==> steps[i].change < |changes|
  {
    if steps == [] then db
    else Execute(Run(db, changes, steps[..|steps| - 1]), changes, steps[|steps| - 1])
  }

  /** The changes describe `db`: one change per target, originals are the rows that are there. */
  ghost predicate Describes(changes: seq<Resolved>, db: Database) {
    && (forall i, j :: 0 <= i < j < |changes| ==> changes[i].target != changes[j].target)
    && (forall i :: 0 <= i < |changes| ==> WellFormed(changes[i]) && changes[i].original == Lookup(db, changes[i].target))
  }

  /** Deletes and updates are of canonical rows; everything but a delete has a final row. */
  ghost predicate WellFormed(c: Resolved) {
    && (c.original.Some? <==> c.baseExists)
    && (c.final.Some? <==> c.operation != Delete)
    && (c.operation != Insert ==> c.baseExists)
  }

  // ---------------------------------------------------------------------------------------
  // The state after a set of steps
  // ---------------------------------------------------------------------------------------

  /** The row of change `i` once the steps in `done` have run. */
  function RowAfter(c: Resolved, i: nat, done: set<Step>): Option<Row> {
    if Step(i, Write) in done then c.final
    else if Step(i, Remove) in done then None
    else c.original
  }

  ghost predicate IsStateAfter(db: Database, changes: seq<Resolved>, done: set<Step>, state: Database) {
    && (forall i :: 0 <= i < |changes| ==> Lookup(state, changes[i].target) == RowAfter(changes[i], i, done))
    && (forall t :: Untouched(changes, t) ==> Lookup(state, t) == Lookup(db, t))
  }

  ghost predicate Untouched(changes: seq<Resolved>, t: Target) {
    forall i :: 0 <= i < |changes| ==> changes[i].target != t
  }

  ghost function DoneBy(steps: seq<Step>): set<Step> {
    set s | s in steps
  }

  /** A replaced row's remove never follows its write. */
  ghost predicate RemovesFirst(steps: seq<Step>) {
    forall i, j ::
      0 <= i < |steps| && 0 <= j < |steps| && steps[i].change == steps[j].change && steps[i].kind == Remove && steps[j].kind == Write ==>
      i < j
  }

  lemma ExecuteReachesState(db: Database, changes: seq<Resolved>, done: set<Step>, before: Database, s: Step)
    requires Describes(changes, db) && IsStateAfter(db, changes, done, before)
    requires IsStep(changes, s)
    requires s.kind == Remove ==> Step(s.change, Write) !in done
    ensures IsStateAfter(db, changes, done + {s}, Execute(before, changes, s))
  {
    var after := Execute(before, changes, s);
    forall i | 0 <= i < |changes|
      ensures Lookup(after, changes[i].target) == RowAfter(changes[i], i, done + {s})
    {
      if i != s.change {
        assert Lookup(after, changes[i].target) == Lookup(before, changes[i].target);
      }
    }
  }

  lemma {:induction false} RunReachesState(db: Database, changes: seq<Resolved>, steps: seq<Step>)
    requires Describes(changes, db) && Known(changes, steps) && RemovesFirst(steps)
    ensures IsStateAfter(db, changes, DoneBy(steps), Run(db, changes, steps))
  {
    hide Describes, IsStateAfter, Execute;
    if steps == [] {
      NothingDone(db, changes);
      assert DoneBy(steps) == {};
    } else {
      var init, last := steps[..|steps| - 1], steps[|steps| - 1];
      RunReachesState(db, changes, init);
      assert DoneBy(steps) == DoneBy(init) + {last};
      ExecuteReachesState(db, changes, DoneBy(init), Run(db, changes, init), last);
    }
  }

  lemma NothingDone(db: Database, changes: seq<Resolved>)
    requires Describes(changes, db)
    ensures IsStateAfter(db, changes, {}, db)
  {}

  // ---------------------------------------------------------------------------------------
  // Foreign keys
  // ---------------------------------------------------------------------------------------

  predicate Refers(fk: ForeignKey, db: Database, t: Target, tuple: seq<Value>) {
    t in db && t.table == fk.child && Tuple(Some(db[t]), fk.columns) == Some(tuple)
  }

  predicate Provides(fk: ForeignKey, db: Database, t: Target, tuple: seq<Value>) {
    t in db && t.table == fk.parent && Tuple(Some(db[t]), fk.parentColumns) == Some(tuple)
  }

  ghost predicate Provided(fk: ForeignKey, db: Database, tuple: seq<Value>) {
    exists u :: Provides(fk, db, u, tuple)
  }

  /** The immediate check: every non-null reference has a parent row. */
  ghost predicate Satisfies(fk: ForeignKey, db: Database) {
    forall t, tuple :: Refers(fk, db, t, tuple) ==> Provided(fk, db, tuple)
  }

  /** The referenced columns are unique. */
  ghost predicate UniqueParents(fk: ForeignKey, db: Database) {
    forall t, u, tuple :: Provides(fk, db, t, tuple) && Provides(fk, db, u, tuple) ==> t == u
  }

  /** Change `i` never leaves its row without `tuple`. */
  predicate HoldsThroughout(c: Resolved, columns: seq<Column>, tuple: seq<Value>) {
    !HasStep(c, Remove) && Tuple(c.final, columns) == Some(tuple)
  }

  /** A child that refers to `tuple` before and after, with no step at which it lets go. */
  ghost predicate Keeps(fk: ForeignKey, changes: seq<Resolved>, db: Database, t: Target, tuple: seq<Value>) {
    && Refers(fk, db, t, tuple)
    && forall i :: 0 <= i < |changes| && changes[i].target == t ==> HoldsThroughout(changes[i], fk.columns, tuple)
  }

  /** A parent of `tuple` that no step takes away. */
  ghost predicate Stays(fk: ForeignKey, changes: seq<Resolved>, db: Database, u: Target, tuple: seq<Value>) {
    && Provides(fk, db, u, tuple)
    && forall i :: 0 <= i < |changes| && changes[i].target == u ==> HoldsThroughout(changes[i], fk.parentColumns, tuple)
  }

  /** The condition on the reviewed changes, readable before anything is published. */
  ghost predicate KeptReferencesHaveParents(fk: ForeignKey, changes: seq<Resolved>, db: Database) {
    forall t, tuple :: Keeps(fk, changes, db, t, tuple) ==> exists u :: Stays(fk, changes, db, u, tuple)
  }

  ghost function AllSteps(changes: seq<Resolved>): set<Step> {
    set i, k | 0 <= i < |changes| && k in {Remove, Write} && HasStep(changes[i], k) :: Step(i, k)
  }

  /** `done` holds every step that a step of `done` must follow. */
  ghost predicate Closed(changes: seq<Resolved>, fks: seq<ForeignKey>, done: set<Step>) {
    forall a, b :: IsStep(changes, a) && IsStep(changes, b) && a != b && MustPrecede(changes, fks, a, b) && b in done ==> a in done
  }

  // ---------------------------------------------------------------------------------------
  // Every closed set of steps satisfies the foreign key
  // ---------------------------------------------------------------------------------------

  ghost predicate Setting(fk: ForeignKey, f: nat, fks: seq<ForeignKey>, changes: seq<Resolved>, db: Database, done: set<Step>, state: Database) {
    && f < |fks| && fks[f] == fk
    && Describes(changes, db)
    && Closed(changes, fks, done) && done <= AllSteps(changes)
    && IsStateAfter(db, changes, done, state)
  }

  lemma KeptParentIsThere(fk: ForeignKey, f: nat, fks: seq<ForeignKey>, changes: seq<Resolved>, db: Database, done: set<Step>,
                          state: Database, u: Target, tuple: seq<Value>)
    requires Setting(fk, f, fks, changes, db, done, state)
    requires Stays(fk, changes, db, u, tuple)
    ensures Provides(fk, state, u, tuple)
  {
    if i :| 0 <= i < |changes| && changes[i].target == u {
      assert Lookup(state, u) == RowAfter(changes[i], i, done);
      assert Step(i, Remove) !in done;
    } else {
      assert Lookup(state, u) == Lookup(db, u);
    }
  }

  /** A child that has not let go yet still has the parent it started with. */
  lemma UnreleasedChild(fk: ForeignKey, f: nat, fks: seq<ForeignKey>, changes: seq<Resolved>, db: Database, done: set<Step>,
                        state: Database, i: nat, u: Target, tuple: seq<Value>)
    requires Setting(fk, f, fks, changes, db, done, state)
    requires i < |changes| && changes[i].target.table == fk.child
    requires Tuple(changes[i].original, fk.columns) == Some(tuple)
    requires LosingStep(changes[i], i, fk.columns).Some? && LosingStep(changes[i], i, fk.columns).value !in done
    requires Provides(fk, db, u, tuple)
    ensures Provides(fk, state, u, tuple)
  {
    if j :| 0 <= j < |changes| && changes[j].target == u {
      var p := changes[j];
      var release, lose := LosingStep(changes[i], i, fk.columns), LosingStep(p, j, fk.parentColumns);
      assert Lookup(state, u) == RowAfter(p, j, done);
      if lose.Some? {
        assert lose.value !in done by {
          if lose != release {
            assert (release.value, lose.value) in PairEdges(changes, fk, i, j);
            assert MustPrecede(changes, fks, release.value, lose.value);
          }
        }
        if HasStep(p, Remove) && HasStep(p, Write) {
          assert (Step(j, Remove), Step(j, Write)) in ReplaceEdge(changes, j);
          assert MustPrecede(changes, fks, Step(j, Remove), Step(j, Write));
        }
        assert Step(j, Write) !in done && Step(j, Remove) !in done;
      } else {
        assert Step(j, Remove) !in done;
      }
    } else {
      assert Lookup(state, u) == Lookup(db, u);
    }
  }

  /** A child that has taken hold already has the parent it will end with. */
  lemma AcquiredChild(fk: ForeignKey, f: nat, fks: seq<ForeignKey>, changes: seq<Resolved>, db: Database, done: set<Step>,
                      state: Database, end: Database, i: nat, u: Target, tuple: seq<Value>)
    requires Setting(fk, f, fks, changes, db, done, state)
    requires IsStateAfter(db, changes, AllSteps(changes), end)
    requires i < |changes| && changes[i].target.table == fk.child
    requires Tuple(changes[i].final, fk.columns) == Some(tuple)
    requires GainingStep(changes[i], i, fk.columns).Some? && GainingStep(changes[i], i, fk.columns).value in done
    requires Provides(fk, end, u, tuple)
    ensures Provides(fk, state, u, tuple)
  {
    if j :| 0 <= j < |changes| && changes[j].target == u {
      var p := changes[j];
      var acquire, provide := GainingStep(changes[i], i, fk.columns), GainingStep(p, j, fk.parentColumns);
      assert Lookup(state, u) == RowAfter(p, j, done);
      assert Lookup(end, u) == RowAfter(p, j, AllSteps(changes));
      assert Step(j, Write) in AllSteps(changes) <==> HasStep(p, Write);
      assert Step(j, Remove) in AllSteps(changes) <==> HasStep(p, Remove);
      if provide.Some? {
        if provide != acquire {
          assert (provide.value, acquire.value) in PairEdges(changes, fk, i, j);
          assert MustPrecede(changes, fks, provide.value, acquire.value);
        }
        assert provide.value in done;
      } else {
        assert Step(j, Remove) !in done;
      }
    } else {
      assert Lookup(state, u) == Lookup(db, u) && Lookup(end, u) == Lookup(db, u);
    }
  }

  /** Every child row present has a parent: it keeps its reference, has not let go, or has taken hold. */
  lemma ClosedSetSatisfies(fk: ForeignKey, f: nat, fks: seq<ForeignKey>, changes: seq<Resolved>, db: Database, done: set<Step>,
                           state: Database, end: Database)
    requires Setting(fk, f, fks, changes, db, done, state)
    requires IsStateAfter(db, changes, AllSteps(changes), end)
    requires Satisfies(fk, db) && Satisfies(fk, end) && KeptReferencesHaveParents(fk, changes, db)
    ensures Satisfies(fk, state)
  {
    forall t, tuple | Refers(fk, state, t, tuple)
      ensures Provided(fk, state, tuple)
    {
      if Untouched(changes, t) {
        assert Lookup(state, t) == Lookup(db, t);
        assert Keeps(fk, changes, db, t, tuple);
      }
      if Keeps(fk, changes, db, t, tuple) {
        var u :| Stays(fk, changes, db, u, tuple);
        KeptParentIsThere(fk, f, fks, changes, db, done, state, u, tuple);
      } else {
        var i :| 0 <= i < |changes| && changes[i].target == t;
        ChildHasParent(fk, f, fks, changes, db, done, state, end, i, t, tuple);
      }
    }
  }

  lemma ChildHasParent(fk: ForeignKey, f: nat, fks: seq<ForeignKey>, changes: seq<Resolved>, db: Database, done: set<Step>,
                       state: Database, end: Database, i: nat, t: Target, tuple: seq<Value>)
    requires Setting(fk, f, fks, changes, db, done, state)
    requires IsStateAfter(db, changes, AllSteps(changes), end)
    requires Satisfies(fk, db) && Satisfies(fk, end)
    requires Refers(fk, state, t, tuple) && i < |changes| && changes[i].target == t
    requires Refers(fk, db, t, tuple) ==> !HoldsThroughout(changes[i], fk.columns, tuple)
    ensures Provided(fk, state, tuple)
  {
    var c := changes[i];
    assert Lookup(state, t) == RowAfter(c, i, done) && c.original == Lookup(db, t);
    if Step(i, Write) in done {
      assert Step(i, Write) in AllSteps(changes);
      assert Lookup(end, t) == c.final;
      assert Refers(fk, end, t, tuple);
      var u :| Provides(fk, end, u, tuple);
      AcquiredChild(fk, f, fks, changes, db, done, state, end, i, u, tuple);
    } else {
      assert Refers(fk, db, t, tuple);
      var u :| Provides(fk, db, u, tuple);
      UnreleasedChild(fk, f, fks, changes, db, done, state, i, u, tuple);
    }
  }

  // ---------------------------------------------------------------------------------------
  // The schedule
  // ---------------------------------------------------------------------------------------

  lemma PrefixIsClosed(changes: seq<Resolved>, fks: seq<ForeignKey>, schedule: seq<Step>, k: nat)
    requires Schedule(changes, fks, schedule) && k <= |schedule|
    ensures Closed(changes, fks, DoneBy(schedule[..k]))
    ensures DoneBy(schedule[..k]) <= AllSteps(changes)
    ensures Known(changes, schedule[..k]) && RemovesFirst(schedule[..k])
    ensures k == |schedule| ==> DoneBy(schedule[..k]) == AllSteps(changes)
  {
    var prefix := schedule[..k];
    forall a, b | IsStep(changes, a) && IsStep(changes, b) && a != b && MustPrecede(changes, fks, a, b) && b in DoneBy(prefix)
      ensures a in DoneBy(prefix)
    {
      var j :| 0 <= j < k && prefix[j] == b;
      assert a in schedule;
      var i :| 0 <= i < |schedule| && schedule[i] == a;
      assert schedule[j] == b;
      assert prefix[i] == a;
    }
    forall s | s in DoneBy(prefix)
      ensures s in AllSteps(changes)
    {
      assert s in schedule && IsStep(changes, s);
    }
    forall i, j | 0 <= i < |prefix| && 0 <= j < |prefix| && prefix[i].change == prefix[j].change
                  && prefix[i].kind == Remove && prefix[j].kind == Write
      ensures i < j
    {
      assert schedule[i] in schedule && schedule[j] in schedule;
      var n := prefix[i].change;
      assert (Step(n, Remove), Step(n, Write)) in ReplaceEdge(changes, n);
      assert MustPrecede(changes, fks, schedule[i], schedule[j]);
    }
    forall i | 0 <= i < |prefix|
      ensures IsStep(changes, prefix[i])
    {
      assert prefix[i] in schedule;
    }
    if k == |schedule| {
      assert prefix == schedule;
      forall s | s in AllSteps(changes)
        ensures s in DoneBy(prefix)
      {
        assert IsStep(changes, s);
      }
    }
  }

  /** Publishing in schedule order: every intermediate state satisfies every foreign key. */
  lemma EveryPrefixSatisfies(fks: seq<ForeignKey>, f: nat, changes: seq<Resolved>, db: Database, schedule: seq<Step>, k: nat)
    requires f < |fks| && k <= |schedule|
    requires Describes(changes, db) && Schedule(changes, fks, schedule)
    requires forall i :: 0 <= i < |schedule| ==> schedule[i].change < |changes|
    requires Satisfies(fks[f], db) && Satisfies(fks[f], Run(db, changes, schedule))
    requires KeptReferencesHaveParents(fks[f], changes, db)
    ensures Satisfies(fks[f], Run(db, changes, schedule[..k]))
  {
    PrefixIsClosed(changes, fks, schedule, k);
    PrefixIsClosed(changes, fks, schedule, |schedule|);
    assert schedule[..|schedule|] == schedule;
    RunReachesState(db, changes, schedule[..k]);
    RunReachesState(db, changes, schedule);
    ClosedSetSatisfies(fks[f], f, fks, changes, db, DoneBy(schedule[..k]), Run(db, changes, schedule[..k]), Run(db, changes, schedule));
  }

  /** A provider can only change at the step of its own target. */
  lemma StepKeepsOthers(db: Database, changes: seq<Resolved>, steps: seq<Step>, k: nat, fk: ForeignKey, u: Target, tuple: seq<Value>)
    requires k < |steps| && forall i :: 0 <= i < |steps| ==> steps[i].change < |changes|
    requires changes[steps[k].change].target != u
    ensures Provides(fk, Run(db, changes, steps[..k]), u, tuple) <==> Provides(fk, Run(db, changes, steps[..k + 1]), u, tuple)
  {
    assert steps[..k + 1][..k] == steps[..k];
  }

  lemma RemovedProvidesNothing(db: Database, changes: seq<Resolved>, steps: seq<Step>, k: nat, fk: ForeignKey, tuple: seq<Value>)
    requires k < |steps| && forall i :: 0 <= i < |steps| ==> steps[i].change < |changes|
    requires steps[k].kind == Remove
    ensures !Provides(fk, Run(db, changes, steps[..k + 1]), changes[steps[k].change].target, tuple)
  {
    assert steps[..k + 1][..k] == steps[..k];
  }

  /** With unique parents and no gap, the provider of a kept reference never changes hands. */
  lemma {:induction false} ProviderIsConstant(fk: ForeignKey, changes: seq<Resolved>, db: Database, steps: seq<Step>, u: Target,
                                              tuple: seq<Value>, k: nat)
    requires k <= |steps| && forall i :: 0 <= i < |steps| ==> steps[i].change < |changes|
    requires forall i :: 0 <= i <= |steps| ==> UniqueParents(fk, Run(db, changes, steps[..i]))
    requires forall i :: 0 <= i <= |steps| ==> Provided(fk, Run(db, changes, steps[..i]), tuple)
    requires Provides(fk, db, u, tuple)
    ensures Provides(fk, Run(db, changes, steps[..k]), u, tuple)
  {
    if k > 0 {
      ProviderIsConstant(fk, changes, db, steps, u, tuple, k - 1);
      var w :| Provides(fk, Run(db, changes, steps[..k]), w, tuple);
      if w != u {
        var moved := changes[steps[k - 1].change].target;
        if moved != w {
          StepKeepsOthers(db, changes, steps, k - 1, fk, w, tuple);
        } else {
          StepKeepsOthers(db, changes, steps, k - 1, fk, u, tuple);
        }
      }
    }
  }

  /** A kept reference stays put at every prefix. */
  lemma KeeperStays(fk: ForeignKey, changes: seq<Resolved>, db: Database, done: set<Step>, state: Database, t: Target, tuple: seq<Value>)
    requires Describes(changes, db) && IsStateAfter(db, changes, done, state) && done <= AllSteps(changes)
    requires Keeps(fk, changes, db, t, tuple)
    ensures Refers(fk, state, t, tuple)
  {
    if i :| 0 <= i < |changes| && changes[i].target == t {
      assert Lookup(state, t) == RowAfter(changes[i], i, done);
      assert Step(i, Remove) !in done;
    } else {
      assert Lookup(state, t) == Lookup(db, t);
    }
  }

  /** A provider of every prefix is one that no step takes away. */
  lemma ConstantProviderStays(fk: ForeignKey, fks: seq<ForeignKey>, changes: seq<Resolved>, db: Database, schedule: seq<Step>, u: Target, tuple: seq<Value>)
    requires Describes(changes, db) && Schedule(changes, fks, schedule)
    requires forall i :: 0 <= i < |schedule| ==> schedule[i].change < |changes|
    requires forall k :: 0 <= k <= |schedule| ==> Provides(fk, Run(db, changes, schedule[..k]), u, tuple)
    ensures Stays(fk, changes, db, u, tuple)
  {
    assert schedule[..0] == [] && Run(db, changes, schedule[..0]) == db;
    assert Provides(fk, Run(db, changes, schedule[..0]), u, tuple);
    forall i | 0 <= i < |changes| && changes[i].target == u
      ensures HoldsThroughout(changes[i], fk.parentColumns, tuple)
    {
      if HasStep(changes[i], Remove) {
        assert IsStep(changes, Step(i, Remove)) && Step(i, Remove) in schedule;
        var k :| 0 <= k < |schedule| && schedule[k] == Step(i, Remove);
        RemovedProvidesNothing(db, changes, schedule, k, fk, tuple);
      }
      PrefixIsClosed(changes, fks, schedule, |schedule|);
      RunReachesState(db, changes, schedule[..|schedule|]);
      assert Step(i, Write) in AllSteps(changes) <==> HasStep(changes[i], Write);
      assert Provides(fk, Run(db, changes, schedule[..|schedule|]), u, tuple);
    }
  }

  /** The condition is also necessary: unless it holds, some intermediate state breaks the foreign key. */
  lemma SafeSchedulesKeepParents(fks: seq<ForeignKey>, f: nat, changes: seq<Resolved>, db: Database, schedule: seq<Step>)
    requires f < |fks| && Describes(changes, db) && Schedule(changes, fks, schedule)
    requires forall i :: 0 <= i < |schedule| ==> schedule[i].change < |changes|
    requires forall k :: 0 <= k <= |schedule| ==> UniqueParents(fks[f], Run(db, changes, schedule[..k]))
    requires forall k :: 0 <= k <= |schedule| ==> Satisfies(fks[f], Run(db, changes, schedule[..k]))
    ensures KeptReferencesHaveParents(fks[f], changes, db)
  {
    var fk := fks[f];
    forall t, tuple | Keeps(fk, changes, db, t, tuple)
      ensures exists u :: Stays(fk, changes, db, u, tuple)
    {
      forall k | 0 <= k <= |schedule|
        ensures Provided(fk, Run(db, changes, schedule[..k]), tuple)
      {
        PrefixIsClosed(changes, fks, schedule, k);
        RunReachesState(db, changes, schedule[..k]);
        KeeperStays(fk, changes, db, DoneBy(schedule[..k]), Run(db, changes, schedule[..k]), t, tuple);
      }
      assert schedule[..0] == [] && Run(db, changes, schedule[..0]) == db;
      var u :| Provides(fk, Run(db, changes, schedule[..0]), u, tuple);
      forall k | 0 <= k <= |schedule|
        ensures Provides(fk, Run(db, changes, schedule[..k]), u, tuple)
      {
        ProviderIsConstant(fk, changes, db, schedule, u, tuple, k);
      }
      ConstantProviderStays(fk, fks, changes, db, schedule, u, tuple);
    }
  }

  /** Both directions at once. */
  lemma ScheduleIsSafeIff(fks: seq<ForeignKey>, f: nat, changes: seq<Resolved>, db: Database, schedule: seq<Step>)
    requires f < |fks| && Describes(changes, db) && Schedule(changes, fks, schedule)
    requires forall i :: 0 <= i < |schedule| ==> schedule[i].change < |changes|
    requires Satisfies(fks[f], db) && Satisfies(fks[f], Run(db, changes, schedule))
    requires forall k :: 0 <= k <= |schedule| ==> UniqueParents(fks[f], Run(db, changes, schedule[..k]))
    ensures (forall k :: 0 <= k <= |schedule| ==> Satisfies(fks[f], Run(db, changes, schedule[..k])))
       <==> KeptReferencesHaveParents(fks[f], changes, db)
  {
    if KeptReferencesHaveParents(fks[f], changes, db) {
      forall k | 0 <= k <= |schedule|
        ensures Satisfies(fks[f], Run(db, changes, schedule[..k]))
      {
        EveryPrefixSatisfies(fks, f, changes, db, schedule, k);
      }
    } else if forall k :: 0 <= k <= |schedule| ==> Satisfies(fks[f], Run(db, changes, schedule[..k])) {
      SafeSchedulesKeepParents(fks, f, changes, db, schedule);
    }
  }

  // ---------------------------------------------------------------------------------------
  // Two drafts whose every order breaks a foreign key on the way
  // ---------------------------------------------------------------------------------------

  /** Children refer to the `code` of a parent. */
  const CODE_KEY := ForeignKey("child", ["code"], "parent", ["code"])

  const FIRST_PARENT := Target("parent", Num(1))
  const SECOND_PARENT := Target("parent", Num(2))
  const CHILD := Target("child", Num(1))

  function ParentRow(id: int, code: int): Row {
    map["id" := Num(id), "code" := Num(code)]
  }

  /** Two parents with the codes 7 and 8, and a child of the first. */
  const FAMILY: Database :=
    map[FIRST_PARENT := ParentRow(1, 7), SECOND_PARENT := ParentRow(2, 8), CHILD := ParentRow(1, 7)]

  /** The draft deleted the first parent and inserted it again as it was. */
  const REPLACED_PARENT := [Resolved(FIRST_PARENT, Insert, true, Some(ParentRow(1, 7)), Some(ParentRow(1, 7)))]

  /** The draft gave the first parent another code and its old one to the second. */
  const MOVED_CODE :=
    [Resolved(FIRST_PARENT, Update, true, Some(ParentRow(1, 7)), Some(ParentRow(1, 9))),
     Resolved(SECOND_PARENT, Update, true, Some(ParentRow(2, 8)), Some(ParentRow(2, 7)))]

  lemma CodeOf(row: Row)
    requires "code" in row && row["code"] != Null
    ensures Tuple(Some(row), ["code"]) == Some([row["code"]])
  {
    assert ["code"][..|["code"]| - 1] == [];
    assert Tuple(Some(row), []) == Some([]);
    assert [] + [row["code"]] == [row["code"]];
  }

  lemma FamilyIsConsistent()
    ensures Satisfies(CODE_KEY, FAMILY)
    ensures Provides(CODE_KEY, FAMILY, FIRST_PARENT, [Num(7)]) && Refers(CODE_KEY, FAMILY, CHILD, [Num(7)])
  {
    CodeOf(ParentRow(1, 7));
    assert Provides(CODE_KEY, FAMILY, FIRST_PARENT, [Num(7)]);
  }

  /** A state in which the child is left and no parent has its code. */
  lemma ChildIsOrphaned(db: Database)
    requires CHILD in db && db[CHILD] == ParentRow(1, 7)
    requires forall u :: u in db && u.table == "parent" ==> "code" in db[u] && db[u]["code"] != Num(7) && db[u]["code"] != Null
    ensures !Satisfies(CODE_KEY, db)
  {
    CodeOf(ParentRow(1, 7));
    assert Refers(CODE_KEY, db, CHILD, [Num(7)]);
    if Provided(CODE_KEY, db, [Num(7)]) {
      var u :| Provides(CODE_KEY, db, u, [Num(7)]);
      CodeOf(db[u]);
      assert false;
    }
  }

  lemma CodesOf(a: int, b: int)
    ensures Tuple(Some(ParentRow(a, b)), ["code"]) == Some([Num(b)])
  {
    CodeOf(ParentRow(a, b));
  }

  lemma ReplacedParentSchedule()
    ensures Describes(REPLACED_PARENT, FAMILY)
    ensures Schedule(REPLACED_PARENT, [CODE_KEY], [Step(0, Remove), Step(0, Write)])
  {
    hide Tuple;
    var schedule := [Step(0, Remove), Step(0, Write)];
    forall s
      ensures s in schedule <==> IsStep(REPLACED_PARENT, s)
    {
      assert schedule[0] in schedule && schedule[1] in schedule;
    }
  }

  lemma MovedCodeSchedule()
    ensures Describes(MOVED_CODE, FAMILY)
    ensures Schedule(MOVED_CODE, [CODE_KEY], [Step(0, Write), Step(1, Write)])
  {
    hide Tuple;
    var schedule := [Step(0, Write), Step(1, Write)];
    forall s
      ensures s in schedule <==> IsStep(MOVED_CODE, s)
    {
      assert schedule[0] in schedule && schedule[1] in schedule;
    }
    forall a, b
      ensures !MustPrecede(MOVED_CODE, [CODE_KEY], a, b)
    {}
  }

  /** The one order there is removes the parent first, and the child that keeps its reference has none until it is back. */
  lemma ReplacedParentBreaksKey()
    ensures Describes(REPLACED_PARENT, FAMILY) && Satisfies(CODE_KEY, FAMILY)
    ensures var schedule := [Step(0, Remove), Step(0, Write)];
            && Schedule(REPLACED_PARENT, [CODE_KEY], schedule)
            && Run(FAMILY, REPLACED_PARENT, schedule) == FAMILY
            && !Satisfies(CODE_KEY, Run(FAMILY, REPLACED_PARENT, schedule[..1]))
    ensures !KeptReferencesHaveParents(CODE_KEY, REPLACED_PARENT, FAMILY)
  {
    hide Schedule, Satisfies, Tuple, KeptReferencesHaveParents;
    FamilyIsConsistent();
    ReplacedParentSchedule();
    var schedule := [Step(0, Remove), Step(0, Write)];
    assert schedule[..1] == [Step(0, Remove)] && schedule[..1][..0] == [];
    assert Run(FAMILY, REPLACED_PARENT, schedule[..1]) == FAMILY - {FIRST_PARENT};
    assert Run(FAMILY, REPLACED_PARENT, schedule) == FAMILY;
    ChildIsOrphaned(FAMILY - {FIRST_PARENT});
    NoParentStays(REPLACED_PARENT);
  }

  lemma CodeHasMoved(end: Database)
    requires end == FAMILY[FIRST_PARENT := ParentRow(1, 9)][SECOND_PARENT := ParentRow(2, 7)]
    ensures Satisfies(CODE_KEY, end)
  {
    CodesOf(2, 7);
    CodesOf(1, 7);
    assert Provides(CODE_KEY, end, SECOND_PARENT, [Num(7)]);
  }

  lemma TwoParentsOfOneCode(db: Database)
    requires db == FAMILY[SECOND_PARENT := ParentRow(2, 7)]
    ensures !UniqueParents(CODE_KEY, db)
  {
    CodesOf(1, 7);
    CodesOf(2, 7);
    assert Provides(CODE_KEY, db, FIRST_PARENT, [Num(7)]) && Provides(CODE_KEY, db, SECOND_PARENT, [Num(7)]);
  }

  /** The order writes the first parent first, and the child it leaves has none; the other order gives two parents one code. */
  lemma MovedCodeBreaksKey()
    ensures Describes(MOVED_CODE, FAMILY) && Satisfies(CODE_KEY, FAMILY)
    ensures var schedule := [Step(0, Write), Step(1, Write)];
            && Schedule(MOVED_CODE, [CODE_KEY], schedule)
            && Satisfies(CODE_KEY, Run(FAMILY, MOVED_CODE, schedule))
            && !Satisfies(CODE_KEY, Run(FAMILY, MOVED_CODE, schedule[..1]))
    ensures !UniqueParents(CODE_KEY, Run(FAMILY, MOVED_CODE, [Step(1, Write)]))
    ensures !KeptReferencesHaveParents(CODE_KEY, MOVED_CODE, FAMILY)
  {
    hide Schedule, Satisfies, Tuple, UniqueParents, KeptReferencesHaveParents, HoldsThroughout;
    FamilyIsConsistent();
    MovedCodeSchedule();
    var schedule := [Step(0, Write), Step(1, Write)];
    assert schedule[..1] == [Step(0, Write)] && schedule[..1][..0] == [];
    var halfway := FAMILY[FIRST_PARENT := ParentRow(1, 9)];
    assert Run(FAMILY, MOVED_CODE, schedule[..1]) == halfway;
    ChildIsOrphaned(halfway);
    assert Run(FAMILY, MOVED_CODE, schedule) == halfway[SECOND_PARENT := ParentRow(2, 7)];
    CodeHasMoved(Run(FAMILY, MOVED_CODE, schedule));
    assert [Step(1, Write)][..0] == [];
    TwoParentsOfOneCode(Run(FAMILY, MOVED_CODE, [Step(1, Write)]));
    LosesCode();
    NoParentStays(MOVED_CODE);
  }

  lemma LosesCode()
    ensures !HoldsThroughout(MOVED_CODE[0], ["code"], [Num(7)])
  {
    CodesOf(1, 9);
  }

  /** The child keeps code 7, and the only parent that has it does not. */
  lemma NoParentStays(changes: seq<Resolved>)
    requires |changes| > 0 && changes[0].target == FIRST_PARENT && forall i :: 0 <= i < |changes| ==> changes[i].target != CHILD
    requires !HoldsThroughout(changes[0], ["code"], [Num(7)])
    ensures !KeptReferencesHaveParents(CODE_KEY, changes, FAMILY)
  {
    FamilyIsConsistent();
    CodesOf(2, 8);
    assert Keeps(CODE_KEY, changes, FAMILY, CHILD, [Num(7)]);
    forall u
      ensures !Stays(CODE_KEY, changes, FAMILY, u, [Num(7)])
    {}
  }
}
