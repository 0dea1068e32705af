/**
 * Publishing a draft (packages/server/src/draft-review-state.ts,
 * packages/server/src/draft-publication.ts, packages/server/src/draft-lifecycle.ts `publish`): the
 * check of every changed row, the replay, and the application. A draft that passes is still
 * anchored to the rows it was written over, so publishing it leaves what its reader saw.
 */
module DraftReview {
  import opened Common
  import opened DraftOverlay
  import opened DraftWrites
  import opened PublishOrder
  import opened PublishSafety
  import opened CanonicalWrites
  import opened DraftTables
  import opened DraftHistory
  import opened Publication
  import opened PublishChanges
  import opened PublishedRuns
  import StepGraph
  import R = RowRevisions

  // ---------------------------------------------------------------------------------------
  // The check of every changed row
  // ---------------------------------------------------------------------------------------

  /** The reason a changed row conflicts, by revision where its table has one and else by presence. */
  function RowConflict(schema: Schema, rows: Rows, ledger: Ledger, t: Target, change: Change): Option<R.Conflict> {
    if schema.revision.Some? then R.Check(R.RowAnchor(change.baseExists, change.baseRevision), IdentityOf(schema, rows, ledger, t))
    else R.CheckPresence(change.baseExists, t in rows)
  }

  datatype DraftRowConflict = DraftRowConflict(target: Target, reason: R.Conflict)

  method AssertDraftRowsUnchanged(db: TrackedDb, changes: ChangeRows) returns (conflicts: set<DraftRowConflict>)
    ensures forall t, reason ::
              DraftRowConflict(t, reason) in conflicts
              <==> t in changes && RowConflict(db.schemas(t.table), db.rows, db.ledger, t, changes[t]) == Some(reason)
  {
    hide RowConflict;
    conflicts := {};
    var waiting := changes.Keys;
    while waiting != {}
      invariant waiting <= changes.Keys
      invariant forall t, reason ::
                  DraftRowConflict(t, reason) in conflicts
                  <==> t in changes && t !in waiting && RowConflict(db.schemas(t.table), db.rows, db.ledger, t, changes[t]) == Some(reason)
    {
      var t :| t in waiting;
      var conflict := RowConflict(db.schemas(t.table), db.rows, db.ledger, t, changes[t]);
      if conflict.Some? {
        conflicts := conflicts + {DraftRowConflict(t, conflict.value)};
      }
      waiting := waiting - {t};
    }
  }

  /** An accepted change stands over exactly the row and the ledger entry its draft first saw. */
  lemma AcceptedIsUntouched(schema: Schema, h: History, now: Tracked, change: Change)
    requires schema.revision.Some? && Traced(schema, h, now, change)
    ensures R.Check(R.RowAnchor(change.baseExists, change.baseRevision), IdentityIn(schema, now)) == None <==> !Rewritten(schema, h)
    ensures !Rewritten(schema, h) ==> now == h.start
  {
    hide AnchoredChange, Rewritten, TypedRowOp;
    var s := IdentityIn(schema, h.start);
    RunMovesIdentity(schema, h.start, h.ops);
    RewrittenIffAnyWrite(schema, h);
    R.AcceptedIffUnwritten(s, Kinds(h.ops));
    if !Rewritten(schema, h) {
      UnwrittenStays(schema, h);
    }
  }

  /** In every run, a changed row of a revisioned table conflicts exactly if a tracked statement has written it since the draft first touched it. */
  lemma ConflictIffRewritten(schemas: string -> Schema, m: Moment, t: Target)
    requires AllSeen(schemas, m) && t in m.changes && schemas(t.table).revision.Some?
    ensures t in m.histories
    ensures RowConflict(schemas(t.table), m.rows, m.ledger, t, m.changes[t]).Some? <==> Rewritten(schemas(t.table), m.histories[t])
  {
    hide Traced, Rewritten, TypedChange, Typed, R.Check;
    assert SeenInv(schemas(t.table), SeenAt(m, t));
    AcceptedIsUntouched(schemas(t.table), m.histories[t], StateOf(m.rows, m.ledger, t), m.changes[t]);
  }

  /**
   * In every run a conflict says what became of the row since the draft first touched it: it came into
   * being, it went away, or, where its table can tell, it was written and is as present or absent as before.
   */
  lemma ConflictSaysWhy(schemas: string -> Schema, m: Moment, t: Target)
    requires AllSeen(schemas, m) && t in m.changes
    ensures t in m.histories
    ensures var schema, before := schemas(t.table), m.histories[t].start.row;
            var conflict := RowConflict(schema, m.rows, m.ledger, t, m.changes[t]);
            && (conflict == Some(R.Created) <==> before.None? && t in m.rows)
            && (conflict == Some(R.Deleted) <==> before.Some? && t !in m.rows)
            && (conflict == Some(R.RevisionChanged)
                <==> schema.revision.Some? && Rewritten(schema, m.histories[t]) && (before.Some? <==> t in m.rows))
  {
    var schema := schemas(t.table);
    assert SeenInv(schema, SeenAt(m, t));
    hide Rewritten, TypedChange, AnchoredChange, SeenInv;
    TracedHere(schema, SeenAt(m, t));
    if schema.revision.Some? {
      ConflictIffRewritten(schemas, m, t);
    }
  }

  lemma TracedHere(schema: Schema, s: Seen)
    requires SeenInv(schema, s) && s.change.Some?
    ensures s.history.Some? && s.change.value.baseExists == s.history.value.start.row.Some? && Typed(schema, s.now)
  {}

  /** What the check accepts on a revisioned table, publication may apply. */
  lemma AcceptedIsStillAnchored(schemas: string -> Schema, m: Moment, t: Target)
    requires AllSeen(schemas, m) && t in m.changes && schemas(t.table).revision.Some?
    requires RowConflict(schemas(t.table), m.rows, m.ledger, t, m.changes[t]) == None
    ensures StillAnchored(schemas(t.table), m.rows, m.ledger, t, m.changes[t])
    ensures (m.changes[t].baseExists <==> t in m.rows) && t in m.ledger
    ensures t in m.histories && StateOf(m.rows, m.ledger, t) == m.histories[t].start && !Rewritten(schemas(t.table), m.histories[t])
  {
    hide Rewritten, TypedChange, R.Check, AnchoredChange, RowConflict;
    assert SeenInv(schemas(t.table), SeenAt(m, t));
    ConflictIffRewritten(schemas, m, t);
    AcceptedIsUntouched(schemas(t.table), m.histories[t], StateOf(m.rows, m.ledger, t), m.changes[t]);
    AnchoredPresence(schemas(t.table), Lookup(m.rows, t), m.changes[t]);
  }

  // ---------------------------------------------------------------------------------------
  // The replay oracle
  // ---------------------------------------------------------------------------------------

  datatype Difference = MissingTarget | DifferentValue | DifferentAnchor

  function Proposals(change: Change): map<Column, Value> {
    if change.operation == Delete then map[] else map c | c in change.fields :: change.fields[c].proposed
  }

  function Originals(change: Change): map<Column, Anchor> {
    map c | c in change.fields :: change.fields[c].original
  }

  /** How a replayed change differs from the reviewed one; tombstones count as absent. */
  function Compare(expected: Option<Change>, actual: Option<Change>): Option<Difference> {
    if expected.None? && actual.None? then None
    else if expected.None? || actual.None? then Some(MissingTarget)
    else if expected.value.operation != actual.value.operation || Proposals(expected.value) != Proposals(actual.value) then Some(DifferentValue)
    else if expected.value.baseExists != actual.value.baseExists || expected.value.baseRevision != actual.value.baseRevision
            || Originals(expected.value) != Originals(actual.value) then Some(DifferentAnchor)
    else None
  }

  function Reviewables(changes: ChangeRows): ChangeRows {
    map t | t in changes && Reviewable(changes[t]) :: changes[t]
  }

  method AssertReplayMatchesReviewedChanges(stored: ChangeRows, replayed: ChangeRows)
    returns (differences: map<Target, Difference>)
    ensures forall t :: Lookup(differences, t) == Compare(Lookup(Reviewables(stored), t), Lookup(Reviewables(replayed), t))
  {
    hide Compare;
    var expected, actual := Reviewables(stored), Reviewables(replayed);
    differences := map[];
    NothingToCompare();
    var waiting := expected.Keys + actual.Keys;
    while waiting != {}
      invariant waiting <= expected.Keys + actual.Keys
      invariant forall t :: Lookup(differences, t) == if t in waiting then None else Compare(Lookup(expected, t), Lookup(actual, t))
    {
      var t :| t in waiting;
      var difference := Compare(Lookup(expected, t), Lookup(actual, t));
      if difference.Some? {
        differences := differences[t := difference.value];
      }
      waiting := waiting - {t};
    }
  }

  lemma NothingToCompare()
    ensures Compare(None, None) == None
  {}

  /** Agreement is exactly having the same reviewable changes, field for field, the proposals of a delete aside. */
  lemma AgreeIffSame(expected: Change, actual: Change)
    ensures Compare(Some(expected), Some(actual)) == None <==> SameProposals(expected, actual) && SameAnchors(expected, actual)
  {
    DifferenceSaysWhich(Some(expected), Some(actual));
  }

  /** The first difference that applies is the one reported: a missing side, then what is proposed, then what it was read from. */
  lemma DifferenceSaysWhich(expected: Option<Change>, actual: Option<Change>)
    ensures Compare(expected, actual) == Some(MissingTarget) <==> expected.Some? != actual.Some?
    ensures Compare(expected, actual) == Some(DifferentValue)
       <==> expected.Some? && actual.Some? && !SameProposals(expected.value, actual.value)
    ensures Compare(expected, actual) == Some(DifferentAnchor)
       <==> expected.Some? && actual.Some? && SameProposals(expected.value, actual.value) && !SameAnchors(expected.value, actual.value)
  {
    if expected.Some? && actual.Some? {
      ProposalsByField(expected.value, actual.value);
      OriginalsByField(expected.value, actual.value);
    }
  }

  /** Field for field, the proposals of a delete aside. */
  ghost predicate SameProposals(a: Change, b: Change) {
    && a.operation == b.operation
    && (a.operation != Delete ==> a.fields.Keys == b.fields.Keys && forall c :: c in a.fields ==> a.fields[c].proposed == b.fields[c].proposed)
  }

  ghost predicate SameAnchors(a: Change, b: Change) {
    && a.baseExists == b.baseExists && a.baseRevision == b.baseRevision
    && a.fields.Keys == b.fields.Keys && forall c :: c in a.fields ==> a.fields[c].original == b.fields[c].original
  }

  lemma ProposalsByField(a: Change, b: Change)
    ensures a.operation == b.operation && Proposals(a) == Proposals(b) <==> SameProposals(a, b)
  {
    if a.operation == b.operation != Delete && Proposals(a) == Proposals(b) {
      assert Proposals(a).Keys == a.fields.Keys && Proposals(b).Keys == b.fields.Keys;
      forall c | c in a.fields
        ensures a.fields[c].proposed == b.fields[c].proposed
      {
        assert Proposals(a)[c] == Proposals(b)[c];
      }
    }
  }

  lemma OriginalsByField(a: Change, b: Change)
    ensures a.baseExists == b.baseExists && a.baseRevision == b.baseRevision && Originals(a) == Originals(b) <==> SameAnchors(a, b)
  {
    if Originals(a) == Originals(b) {
      assert Originals(a).Keys == a.fields.Keys && Originals(b).Keys == b.fields.Keys;
      forall c | c in a.fields
        ensures a.fields[c].original == b.fields[c].original
      {
        assert Originals(a)[c] == Originals(b)[c];
      }
    }
  }

  /** A replay with no difference shows every row as the reviewed changes do. */
  lemma MatchingReplayShowsTheSameRows(schema: Schema, base: Option<Row>, stored: ChangeRows, replayed: ChangeRows, t: Target)
    requires Compare(Lookup(Reviewables(stored), t), Lookup(Reviewables(replayed), t)) == None
    requires t in stored ==> stored[t].baseExists == base.Some?
    requires t in replayed ==> replayed[t].baseExists == base.Some?
    ensures Effective(schema, base, Lookup(stored, t)) == Effective(schema, base, Lookup(replayed, t))
  {
    if t in Reviewables(stored) && t in Reviewables(replayed) && stored[t].operation != Delete {
      AgreeIffSame(stored[t], replayed[t]);
      assert (map c | c in schema.columns :: EffectiveCell(base, stored[t].fields, c))
          == (map c | c in schema.columns :: EffectiveCell(base, replayed[t].fields, c));
    }
  }

  /** On a table without a revision column, agreeing with a change anchored to the row is being anchored to it. */
  lemma MatchedIsAnchored(schema: Schema, base: Option<Row>, stored: Change, replayed: Change)
    requires schema.revision.None? && AnchoredChange(schema, base, replayed)
    requires Compare(Some(stored), Some(replayed)) == None
    ensures AnchoredChange(schema, base, stored)
  {
    AgreeIffSame(stored, replayed);
  }

  // ---------------------------------------------------------------------------------------
  // Publication
  // ---------------------------------------------------------------------------------------

  datatype PublishFailure =
    | Conflicted(conflicts: set<DraftRowConflict>)
    | Differs(differences: map<Target, Difference>)
    | NotPublished(error: PublishError)

  ghost predicate AnyConflict(schemas: string -> Schema, m: Moment) {
    exists t :: t in m.changes && RowConflict(schemas(t.table), m.rows, m.ledger, t, m.changes[t]).Some?
  }

  /** The fresh draft that replays `commands` over the rows of `m`. */
  ghost predicate Replays(schemas: string -> Schema, m: Moment, commands: seq<DraftStatement>, replay: seq<Moment>) {
    Chain(schemas, replay, Replayed(commands)) && replay[0] == Moment(m.rows, m.ledger, map[], map[])
  }

  function Replayed(commands: seq<DraftStatement>): seq<Event> {
    seq(|commands|, i requires 0 <= i < |commands| => Own(commands[i]))
  }

  function DifferenceAt(stored: ChangeRows, replayed: ChangeRows, t: Target): Option<Difference> {
    Compare(Lookup(Reviewables(stored), t), Lookup(Reviewables(replayed), t))
  }

  /** A change that passes the check and agrees with the replay may be applied. */
  lemma AcceptedIsReviewed(schemas: string -> Schema, m: Moment, replayed: ChangeRows, ledger: Ledger, t: Target)
    requires AllSeen(schemas, m) && t in m.changes
    requires RowConflict(schemas(t.table), m.rows, m.ledger, t, m.changes[t]) == None
    requires DifferenceAt(m.changes, replayed, t) == None
    requires t in replayed ==> AnchoredChange(schemas(t.table), Lookup(m.rows, t), replayed[t])
    requires Lookup(m.ledger, t).Some? ==> Lookup(ledger, t) == Lookup(m.ledger, t)
    ensures m.changes[t].baseExists <==> t in m.rows
    ensures Reviewable(m.changes[t]) ==> Reviewed(Start(schemas, m.rows, ledger), t, m.changes[t])
  {
    hide AnchoredChange, TypedChange, Traced, Compare, R.Valid, R.Check;
    var schema, change := schemas(t.table), m.changes[t];
    assert SeenInv(schema, SeenAt(m, t));
    if schema.revision.Some? {
      AcceptedIsStillAnchored(schemas, m, t);
    } else if Reviewable(change) {
      MissingDiffers(change);
      MatchedIsAnchored(schema, Lookup(m.rows, t), change, replayed[t]);
    }
  }

  lemma MissingDiffers(change: Change)
    ensures Compare(Some(change), None).Some?
  {}

  /** The fresh replay is anchored to the rows the check has seen. */
  lemma ReplayIsAnchored(schemas: string -> Schema, m: Moment, commands: seq<DraftStatement>, replay: seq<Moment>)
    requires forall i :: 0 <= i < |commands| ==> WellTyped(schemas, commands[i])
    requires Replays(schemas, m, commands, replay) && AllSeen(schemas, replay[0])
    ensures var last := replay[|commands|];
            && LedgerReserved(schemas, m.ledger, last.changes, last.ledger)
            && (forall t :: Lookup(last.rows, t) == Lookup(m.rows, t))
            && forall t :: t in last.changes ==> AnchoredChange(schemas(t.table), Lookup(m.rows, t), last.changes[t])
  {
    hide WellTyped, AnchoredChange, Follows, SeenInv;
    OwnRunIsAnchored(schemas, replay, Replayed(commands));
  }

  /** An accepted draft whose statements name columns proposes nothing that cannot be published. */
  lemma AcceptedIsPublishable(schemas: string -> Schema, m: Moment, t: Target)
    requires AllSeen(schemas, m) && AllPublishable(schemas, m) && t in m.changes
    requires RowConflict(schemas(t.table), m.rows, m.ledger, t, m.changes[t]) == None
    ensures !Unpublishable(schemas(t.table), m.changes[t])
  {
    hide Rewritten, TypedChange, Traced, RowConflict, RevisionOnly;
    if schemas(t.table).revision.Some? {
      AcceptedIsStillAnchored(schemas, m, t);
      assert SeenPublishable(schemas(t.table), SeenAt(m, t));
    }
  }

  /** The steps a publication of `m` takes. */
  ghost function PlanOf(schemas: string -> Schema, m: Moment, inspected: seq<Target>): seq<Resolved>
    requires forall i :: 0 <= i < |inspected| ==> inspected[i] in m.changes
  {
    Plan(Start(schemas, m.rows, m.ledger), m.changes, inspected)
  }

  /** Run the commands on a fresh draft over the same tables, and compare what it wrote. */
  method ReplayReviewed(draft: Draft, commands: seq<DraftStatement>, ghost histories: map<Target, History>)
    returns (differences: map<Target, Difference>, ghost replay: seq<Moment>)
    requires draft.Valid() && forall i :: 0 <= i < |commands| ==> WellTyped(draft.db.schemas, commands[i])
    modifies draft.db
    ensures draft.Valid() && draft.SameCanonical(old(draft.db.rows), old(draft.db.tablesWritten))
    ensures Replays(draft.db.schemas, old(Now(draft, histories)), commands, replay) && |replay| == |commands| + 1
    ensures LedgerReserved(draft.db.schemas, old(draft.db.ledger), replay[|commands|].changes, draft.db.ledger)
    ensures forall t :: t in replay[|commands|].changes ==>
              AnchoredChange(draft.db.schemas(t.table), Lookup(draft.db.rows, t), replay[|commands|].changes[t])
    ensures forall t :: Lookup(differences, t) == DifferenceAt(draft.changes, replay[|commands|].changes, t)
  {
    hide TypedChange, TrackedDb.Valid, WellTyped, AnchoredChange, Follows, Compare, SeenInv, AllPublishable, NamesColumns;
    ghost var m := Now(draft, histories);
    var replayDraft := new Draft(draft.db);
    FreshIsSeen(replayDraft);
    replay := DraftHistory.Run(replayDraft, Replayed(commands), map[]);
    ReplayIsAnchored(draft.db.schemas, m, commands, replay);
    differences := AssertReplayMatchesReviewedChanges(draft.changes, replayDraft.changes);
  }

  lemma FreshIsSeen(draft: Draft)
    requires draft.Valid() && draft.changes == map[]
    ensures AllSeen(draft.db.schemas, Now(draft, map[])) && AllPublishable(draft.db.schemas, Now(draft, map[]))
  {
    hide Typed;
    draft.db.ValidIff();
    forall t: Target
      ensures SeenInv(draft.db.schemas(t.table), SeenAt(Now(draft, map[]), t))
    {
      assert draft.db.At(t) == SeenAt(Now(draft, map[]), t).now;
    }
  }

  /** Apply a draft that has passed the check and agreed with its replay; `m` is what the check saw. */
  method ApplyAccepted(draft: Draft, fks: seq<ForeignKey>, inspected: seq<Target>, ghost m: Moment, ghost replayed: ChangeRows)
    returns (outcome: Result<(), PublishError>, ghost schedule: seq<Step>, ghost states: seq<Database>)
    requires draft.Valid() && m.rows == draft.db.rows && m.changes == draft.changes
    requires AllSeen(draft.db.schemas, m) && LedgerReserved(draft.db.schemas, m.ledger, replayed, draft.db.ledger)
    requires !AnyConflict(draft.db.schemas, m) && forall t :: DifferenceAt(draft.changes, replayed, t) == None
    requires forall t :: t in replayed ==> AnchoredChange(draft.db.schemas(t.table), Lookup(m.rows, t), replayed[t])
    requires Distinct(inspected) && forall t :: t in inspected <==> t in draft.changes && Reviewable(draft.changes[t])
    modifies draft.db
    ensures outcome == Err(ForeignKeyCycle) <==> StepGraph.Cyclic(DependencyEdges(PlanOf(draft.db.schemas, m, inspected), fks))
    ensures outcome.Ok? ==> Passed(PlanOf(draft.db.schemas, m, inspected), fks, schedule, states)
    ensures outcome.Ok? ==> forall t :: t in inspected ==> !Unpublishable(draft.db.schemas(t.table), draft.changes[t])
    ensures outcome.Err? && outcome.error.Drift? ==>
              outcome.error.target in inspected
              && Unpublishable(draft.db.schemas(outcome.error.target.table), draft.changes[outcome.error.target])
    ensures outcome.Ok? ==> draft.Valid()
    ensures outcome.Ok? ==>
              forall t :: Lookup(draft.db.rows, t) == Effective(draft.db.schemas(t.table), Lookup(m.rows, t), Lookup(draft.changes, t))
    ensures outcome.Ok? ==>
              forall t :: draft.db.At(t) == ApplyAll(draft.db.schemas(t.table), old(draft.db.At(t)), PublishedOps(draft.db.schemas, draft.changes, t))
    ensures outcome.Ok? ==> draft.db.tablesWritten == old(draft.db.tablesWritten) + WrittenTables(draft.db.schemas, draft.changes)
    ensures outcome.Ok? ==> forall t :: t in inspected && draft.db.schemas(t.table).revision.Some? ==>
              R.Version(draft.db.IdentityAt(t)) > R.Version(old(draft.db.IdentityAt(t)))
  {
    hide Effective, TypedChange, AllSeen, RowConflict, Reviewable, Reviewed, DifferenceAt, AnchoredChange, StepGraph.Cyclic, Passed,
      Unpublishable, DependencyEdges, EntryPublished, PublishedOps, WrittenTables, TrackedDb.Valid, Typed, R.Version;
    ghost var start := Start(draft.db.schemas, draft.db.rows, draft.db.ledger);
    forall t | t in draft.changes
      ensures draft.changes[t].baseExists <==> t in start.rows
      ensures Reviewable(draft.changes[t]) ==> Reviewed(start, t, draft.changes[t])
    {
      AcceptedIsReviewed(draft.db.schemas, m, replayed, draft.db.ledger, t);
    }
    SamePlan(draft.db.schemas, m, draft.db.ledger, inspected);
    draft.db.ValidIff();
    outcome, schedule, states := ApplyReviewedChanges(draft.db, draft.changes, fks, inspected);
    if outcome.Ok? {
      PublicationIsRuns(start, draft.changes, inspected, draft.db.rows, draft.db.ledger);
      forall t | t in inspected && draft.db.schemas(t.table).revision.Some?
        ensures R.Version(draft.db.IdentityAt(t)) > R.Version(old(draft.db.IdentityAt(t)))
      {
        assert Typed(start.schemas(t.table), StateOf(start.rows, start.ledger, t));
        PublicationAdvances(start, t, draft.changes[t]);
        assert draft.db.At(t) == PublishedState(start, t, draft.changes[t]);
      }
    }
  }

  /** A plan is made from the rows; the ledger plays no part in it. */
  lemma SamePlan(schemas: string -> Schema, m: Moment, ledger: Ledger, inspected: seq<Target>)
    requires forall i :: 0 <= i < |inspected| ==> inspected[i] in m.changes
    ensures Plan(Start(schemas, m.rows, ledger), m.changes, inspected) == PlanOf(schemas, m, inspected)
  {}

  /** What the replay does to the ledger at one target. */
  function ReplayLock(replayed: ChangeRows, t: Target): seq<RowOp> {
    if t in replayed then [LockRow] else []
  }

  predicate IsPublished(changes: ChangeRows, t: Target) {
    t in changes && Reviewable(changes[t])
  }

  /**
   * What a publication leaves, in rows and in ledger: at every target a run of tracked writes. Those
   * of the changes it publishes move the row's version forward; everywhere else at most an identity
   * is reserved.
   */
  ghost predicate Leaves(schemas: string -> Schema, changes: ChangeRows, replayed: ChangeRows, before: Tables, after: Tables) {
    && (forall t :: StateOf(after.rows, after.ledger, t)
                 == ApplyAll(schemas(t.table), StateOf(before.rows, before.ledger, t), ReplayLock(replayed, t) + PublishedOps(schemas, changes, t)))
    && (forall t: Target :: schemas(t.table).revision.Some? ==> VersionMoves(schemas(t.table), IsPublished(changes, t), before, after, t))
  }

  /** Forward if published, and else not at all. */
  ghost predicate VersionMoves(schema: Schema, published: bool, before: Tables, after: Tables, t: Target) {
    var old', new' := IdentityOf(schema, before.rows, before.ledger, t), IdentityOf(schema, after.rows, after.ledger, t);
    if published then R.Version(new') > R.Version(old') else R.Version(new') == R.Version(old') && new'.revision == old'.revision
  }

  lemma LockThenPublish(schemas: string -> Schema, rows: Rows, ledger: Ledger, ledger': Ledger, replayed: ChangeRows, ops: seq<RowOp>, t: Target)
    requires LedgerReserved(schemas, ledger, replayed, ledger')
    ensures ApplyAll(schemas(t.table), StateOf(rows, ledger, t), ReplayLock(replayed, t) + ops)
         == ApplyAll(schemas(t.table), StateOf(rows, ledger', t), ops)
  {
    var before := StateOf(rows, ledger, t);
    ApplyAllConcat(schemas(t.table), before, ReplayLock(replayed, t), ops);
    ApplyOne(schemas(t.table), before, LockRow);
  }

  /** Reserving an identity is no write. */
  lemma LockKeepsVersion(schemas: string -> Schema, rows: Rows, ledger: Ledger, ledger': Ledger, replayed: ChangeRows, t: Target)
    requires LedgerReserved(schemas, ledger, replayed, ledger')
    ensures R.Version(IdentityOf(schemas(t.table), rows, ledger', t)) == R.Version(IdentityOf(schemas(t.table), rows, ledger, t))
  {}

  /** The replay's locks and then the application. */
  lemma ApplicationLeaves(schemas: string -> Schema, changes: ChangeRows, replayed: ChangeRows, before: Tables, locked: Ledger, after: Tables)
    requires LedgerReserved(schemas, before.ledger, replayed, locked)
    requires forall t :: StateOf(after.rows, after.ledger, t)
                      == ApplyAll(schemas(t.table), StateOf(before.rows, locked, t), PublishedOps(schemas, changes, t))
    requires forall t :: IsPublished(changes, t) && schemas(t.table).revision.Some? ==>
               R.Version(IdentityOf(schemas(t.table), after.rows, after.ledger, t)) > R.Version(IdentityOf(schemas(t.table), before.rows, locked, t))
    ensures Leaves(schemas, changes, replayed, before, after)
  {
    hide LedgerReserved, ReplayLock, PublicationOps, Apply, R.Version;
    forall t: Target
      ensures StateOf(after.rows, after.ledger, t)
           == ApplyAll(schemas(t.table), StateOf(before.rows, before.ledger, t), ReplayLock(replayed, t) + PublishedOps(schemas, changes, t))
      ensures schemas(t.table).revision.Some? ==> VersionMoves(schemas(t.table), IsPublished(changes, t), before, after, t)
    {
      LockThenPublish(schemas, before.rows, before.ledger, locked, replayed, PublishedOps(schemas, changes, t), t);
      LockKeepsVersion(schemas, before.rows, before.ledger, locked, replayed, t);
      if !IsPublished(changes, t) {
        assert PublishedOps(schemas, changes, t) == [];
        assert StateOf(after.rows, after.ledger, t) == StateOf(before.rows, locked, t);
      }
    }
  }

  /** The application, or the rows, the ledger and the tags the transaction began with. */
  method ApplyOrRollBack(draft: Draft, fks: seq<ForeignKey>, inspected: seq<Target>, ledgerBefore: Ledger,
                         ghost m: Moment, ghost replayed: ChangeRows)
    returns (outcome: Result<(), PublishError>, ghost schedule: seq<Step>, ghost states: seq<Database>)
    requires draft.Valid() && m.rows == draft.db.rows && m.ledger == ledgerBefore && m.changes == draft.changes
    requires AllSeen(draft.db.schemas, m) && LedgerReserved(draft.db.schemas, ledgerBefore, replayed, draft.db.ledger)
    requires !AnyConflict(draft.db.schemas, m) && forall t :: DifferenceAt(draft.changes, replayed, t) == None
    requires forall t :: t in replayed ==> AnchoredChange(draft.db.schemas(t.table), Lookup(m.rows, t), replayed[t])
    requires Distinct(inspected) && forall t :: t in inspected <==> t in draft.changes && Reviewable(draft.changes[t])
    requires forall t: Target :: Typed(draft.db.schemas(t.table), StateOf(m.rows, m.ledger, t))
    modifies draft.db
    ensures draft.Valid()
    ensures outcome.Err? ==> draft.SameCanonical(old(draft.db.rows), old(draft.db.tablesWritten)) && draft.db.ledger == ledgerBefore
    ensures outcome == Err(ForeignKeyCycle) <==> StepGraph.Cyclic(DependencyEdges(PlanOf(draft.db.schemas, m, inspected), fks))
    ensures outcome.Ok? ==> Passed(PlanOf(draft.db.schemas, m, inspected), fks, schedule, states)
    ensures outcome.Ok? ==> forall t :: t in inspected ==> !Unpublishable(draft.db.schemas(t.table), draft.changes[t])
    ensures outcome.Err? && outcome.error.Drift? ==>
              outcome.error.target in inspected
              && Unpublishable(draft.db.schemas(outcome.error.target.table), draft.changes[outcome.error.target])
    ensures outcome.Ok? ==>
              forall t :: Lookup(draft.db.rows, t) == Effective(draft.db.schemas(t.table), Lookup(m.rows, t), Lookup(draft.changes, t))
    ensures outcome.Ok? ==> Leaves(draft.db.schemas, draft.changes, replayed, Tables(m.rows, m.ledger), Tables(draft.db.rows, draft.db.ledger))
    ensures outcome.Ok? ==> draft.db.tablesWritten == old(draft.db.tablesWritten) + WrittenTables(draft.db.schemas, draft.changes)
  {
    hide Effective, TypedChange, TrackedDb.Valid, AllSeen, RowConflict, Reviewable, Typed, StepGraph.Cyclic, Passed, PlanOf, DifferenceAt,
      Unpublishable, DependencyEdges, LedgerReserved, AnchoredChange, PublishedOps, ApplyAll, R.Version, WrittenTables, Leaves, AnyConflict;
    var rowsBefore, tagsBefore := draft.db.rows, draft.db.tablesWritten;
    ghost var locked := draft.db.ledger;
    outcome, schedule, states := ApplyAccepted(draft, fks, inspected, m, replayed);
    if outcome.Err? {
      draft.db.rows, draft.db.ledger, draft.db.tablesWritten := rowsBefore, ledgerBefore, tagsBefore;
      draft.db.ValidIff();
    } else {
      forall t: Target
        ensures draft.db.At(t) == StateOf(draft.db.rows, draft.db.ledger, t)
        ensures old(draft.db.At(t)) == StateOf(rowsBefore, locked, t)
        ensures old(draft.db.IdentityAt(t)) == IdentityOf(draft.db.schemas(t.table), rowsBefore, locked, t)
      {}
      ApplicationLeaves(draft.db.schemas, draft.changes, replayed, Tables(m.rows, m.ledger), locked, Tables(draft.db.rows, draft.db.ledger));
    }
  }

  /**
   * The check, the replay, the comparison, the application, in one transaction. Each way to fail has
   * its exact condition and leaves the tables as they were. A published draft leaves every row as the
   * draft view showed it, over the very rows the draft was written on; if its statements name columns,
   * only a conflict, a difference or a foreign-key cycle can stop it.
   */
  method Publish(draft: Draft, commands: seq<DraftStatement>, fks: seq<ForeignKey>, inspected: seq<Target>, ghost histories: map<Target, History>)
    returns (outcome: Result<(), PublishFailure>, ghost replay: seq<Moment>, ghost schedule: seq<Step>, ghost states: seq<Database>)
    requires draft.Valid() && AllSeen(draft.db.schemas, Now(draft, histories))
    requires forall i :: 0 <= i < |commands| ==> WellTyped(draft.db.schemas, commands[i])
    requires Distinct(inspected) && forall t :: t in inspected <==> t in draft.changes && Reviewable(draft.changes[t])
    modifies draft.db
    ensures draft.Valid()
    ensures outcome.Err? ==> Now(draft, histories) == old(Now(draft, histories)) && draft.db.tablesWritten == old(draft.db.tablesWritten)
    ensures outcome.Err? && outcome.error.Conflicted? <==> AnyConflict(draft.db.schemas, old(Now(draft, histories)))
    ensures outcome.Err? && outcome.error.Conflicted? ==> forall t, reason ::
              DraftRowConflict(t, reason) in outcome.error.conflicts
              <==> t in draft.changes && RowConflict(draft.db.schemas(t.table), draft.db.rows, draft.db.ledger, t, draft.changes[t]) == Some(reason)
    ensures !(outcome.Err? && outcome.error.Conflicted?) ==>
              Replays(draft.db.schemas, old(Now(draft, histories)), commands, replay) && |replay| == |commands| + 1
    ensures !(outcome.Err? && outcome.error.Conflicted?) ==>
              (outcome.Err? && outcome.error.Differs? <==> exists t :: DifferenceAt(draft.changes, replay[|commands|].changes, t).Some?)
    ensures outcome.Err? && outcome.error.Differs? ==>
              forall t :: Lookup(outcome.error.differences, t) == DifferenceAt(draft.changes, replay[|commands|].changes, t)
    ensures outcome.Ok? || outcome.error.NotPublished? ==>
              (outcome == Err(NotPublished(ForeignKeyCycle))
               <==> StepGraph.Cyclic(DependencyEdges(PlanOf(draft.db.schemas, old(Now(draft, histories)), inspected), fks)))
    ensures outcome.Ok? ==> forall t :: t in inspected ==> !Unpublishable(draft.db.schemas(t.table), draft.changes[t])
    ensures outcome.Err? && outcome.error.NotPublished? && outcome.error.error.Drift? ==>
              var t := outcome.error.error.target;
              t in inspected && Unpublishable(draft.db.schemas(t.table), draft.changes[t])
    ensures AllPublishable(draft.db.schemas, old(Now(draft, histories))) ==>
              !(outcome.Err? && outcome.error.NotPublished? && outcome.error.error.Drift?)
    ensures outcome.Ok? ==>
              forall t :: Lookup(draft.db.rows, t) == Effective(draft.db.schemas(t.table), Lookup(old(draft.db.rows), t), Lookup(draft.changes, t))
    ensures outcome.Ok? ==>
              forall t :: t in draft.changes && draft.db.schemas(t.table).revision.Some? ==>
                t in histories && histories[t].start.row == Lookup(old(draft.db.rows), t) && !Rewritten(draft.db.schemas(t.table), histories[t])
    ensures outcome.Ok? ==> Passed(PlanOf(draft.db.schemas, old(Now(draft, histories)), inspected), fks, schedule, states)
    ensures outcome.Ok? ==>
              Leaves(draft.db.schemas, draft.changes, replay[|commands|].changes, old(Tables(draft.db.rows, draft.db.ledger)),
                     Tables(draft.db.rows, draft.db.ledger))
    ensures outcome.Ok? ==> draft.db.tablesWritten == old(draft.db.tablesWritten) + WrittenTables(draft.db.schemas, draft.changes)
  {
    hide PublishedOps, ApplyAll, R.Version, WrittenTables, Leaves;
    hide Effective, TypedChange, TrackedDb.Valid, AllSeen, AllPublishable, Rewritten, Reviewable, RowConflict, WellTyped, Typed,
      StepGraph.Cyclic, Passed, PlanOf, DifferenceAt, Unpublishable, DependencyEdges, LedgerReserved, AnchoredChange, Replays;
    ghost var m := Now(draft, histories);
    var ledgerBefore := draft.db.ledger;
    replay, schedule, states := [], [], [];
    draft.db.ValidIff();
    var conflicts := AssertDraftRowsUnchanged(draft.db, draft.changes);
    if conflicts != {} {
      ghost var c :| c in conflicts;
      assert DraftRowConflict(c.target, c.reason) in conflicts;
      return Err(Conflicted(conflicts)), replay, schedule, states;
    }
    assert forall t, reason :: DraftRowConflict(t, reason) !in conflicts;
    var differences;
    differences, replay := ReplayReviewed(draft, commands, histories);
    if differences != map[] {
      ghost var t :| t in differences;
      assert Lookup(differences, t).Some?;
      draft.db.ledger := ledgerBefore;
      draft.db.ValidIff();
      return Err(Differs(differences)), replay, schedule, states;
    }
    var applied;
    applied, schedule, states := ApplyOrRollBack(draft, fks, inspected, ledgerBefore, m, replay[|commands|].changes);
    outcome := match applied case Ok(_) => Ok(()) case Err(error) => Err(NotPublished(error));
    forall t | t in draft.changes
      ensures AllPublishable(draft.db.schemas, m) ==> !Unpublishable(draft.db.schemas(t.table), draft.changes[t])
      ensures draft.db.schemas(t.table).revision.Some? ==>
                t in histories && histories[t].start.row == Lookup(m.rows, t) && !Rewritten(draft.db.schemas(t.table), histories[t])
    {
      if AllPublishable(draft.db.schemas, m) {
        AcceptedIsPublishable(draft.db.schemas, m, t);
      }
      if draft.db.schemas(t.table).revision.Some? {
        AcceptedIsStillAnchored(draft.db.schemas, m, t);
      }
    }
  }

  /** Some row of a revisioned table was written by a tracked statement after the draft touched it. */
  ghost predicate AnyRewritten(schemas: string -> Schema, m: Moment) {
    exists t :: t in m.changes && t in m.histories && schemas(t.table).revision.Some? && Rewritten(schemas(t.table), m.histories[t])
  }

  lemma RewrittenConflicts(schemas: string -> Schema, m: Moment)
    requires AllSeen(schemas, m)
    ensures AnyRewritten(schemas, m) ==> AnyConflict(schemas, m)
    ensures (forall t :: t in m.changes ==> schemas(t.table).revision.Some?) ==> (AnyRewritten(schemas, m) <==> AnyConflict(schemas, m))
  {
    hide AllSeen, Rewritten, RowConflict;
    forall t | t in m.changes && schemas(t.table).revision.Some?
      ensures t in m.histories
      ensures RowConflict(schemas(t.table), m.rows, m.ledger, t, m.changes[t]).Some? <==> Rewritten(schemas(t.table), m.histories[t])
    {
      ConflictIffRewritten(schemas, m, t);
    }
  }

  /**
   * A fresh draft, any run that interleaves its statements with tracked statements, and its
   * publication with any commands. `review` is the last moment of the run. The outcome is a conflict
   * whenever a row of a revisioned table has been written since the draft touched it, and when all
   * tables are revisioned only then. Success leaves what the draft showed at `review`. Statements
   * that name columns are never refused for drift.
   */
  method WriteAndPublish(db: TrackedDb, events: seq<Event>, commands: seq<DraftStatement>, fks: seq<ForeignKey>)
    returns (outcome: Result<(), PublishFailure>, ghost moments: seq<Moment>, ghost replay: seq<Moment>)
    requires db.Valid() && forall i :: 0 <= i < |events| ==> TypedEvent(db.schemas, events[i])
    requires forall i :: 0 <= i < |commands| ==> WellTyped(db.schemas, commands[i])
    modifies db
    ensures db.Valid()
    ensures Chain(db.schemas, moments, events) && moments[0] == old(Moment(db.rows, db.ledger, map[], map[]))
    ensures var review := moments[|events|];
            var conflicted := outcome.Err? && outcome.error.Conflicted?;
            && (outcome.Err? ==> db.rows == review.rows && db.ledger == review.ledger)
            && (AnyRewritten(db.schemas, review) ==> conflicted)
            && ((forall t :: t in review.changes ==> db.schemas(t.table).revision.Some?) ==> (conflicted <==> AnyRewritten(db.schemas, review)))
            && (!conflicted ==> Replays(db.schemas, review, commands, replay))
            && (!conflicted ==>
                  (outcome.Err? && outcome.error.Differs? <==> exists t :: DifferenceAt(review.changes, replay[|commands|].changes, t).Some?))
            && (outcome.Ok? ==> forall t :: Lookup(db.rows, t) == EffectiveAt(db.schemas, review.rows, review.changes, t))
            && (outcome.Ok? ==>
                  Leaves(db.schemas, review.changes, replay[|commands|].changes, Tables(review.rows, review.ledger), Tables(db.rows, db.ledger)))
            && db.tablesWritten == old(db.tablesWritten) + RunTags(moments, events)
                                   + if outcome.Ok? then WrittenTables(db.schemas, review.changes) else {}
    ensures (forall i :: 0 <= i < |events| ==> NamesColumns(db.schemas, events[i])) ==>
              !(outcome.Err? && outcome.error.NotPublished? && outcome.error.error.Drift?)
  {
    hide TypedEvent, NamesColumns, WellTyped, AllSeen, AllPublishable, Chain, TrackedDb.Valid, TypedChange, Reviewable, AnyConflict, AnyRewritten,
      DifferenceAt, Replays, Effective, RowConflict, StepGraph.Cyclic, Passed, PlanOf, Rewritten, Unpublishable, Leaves, WrittenTables, RunTags;
    var draft := new Draft(db);
    FreshIsSeen(draft);
    moments := DraftHistory.Run(draft, events, map[]);
    ghost var review := moments[|events|];
    RewrittenConflicts(db.schemas, review);
    var inspected := Enumerate(set t | t in draft.changes && Reviewable(draft.changes[t]));
    ghost var schedule, states;
    outcome, replay, schedule, states := Publish(draft, commands, fks, inspected, review.histories);
  }

  // ---------------------------------------------------------------------------------------
  // Other drafts across a publication
  // ---------------------------------------------------------------------------------------

  /** What another draft remembers of its rows once the publication has run its writes on them. */
  ghost function Extended(schemas: string -> Schema, m: Moment, changes: ChangeRows, replayed: ChangeRows): map<Target, History>
    requires forall t :: t in m.changes ==> t in m.histories
  {
    map t | t in m.changes :: m.histories[t].(ops := m.histories[t].ops + (ReplayLock(replayed, t) + PublishedOps(schemas, changes, t)))
  }

  lemma WritesAreTyped(schemas: string -> Schema, changes: ChangeRows, replayed: ChangeRows, t: Target)
    requires t in changes ==> TypedChange(schemas(t.table), changes[t])
    ensures var ops := ReplayLock(replayed, t) + PublishedOps(schemas, changes, t);
            forall i :: 0 <= i < |ops| ==> TypedRowOp(schemas(t.table), ops[i])
  {
    hide PublicationOps;
    if IsPublished(changes, t) {
      OpsAreTyped(schemas(t.table), changes[t]);
    }
  }

  /** One row of another draft: still traced, and written since if it had been or if it was published. */
  lemma OtherRowSees(schemas: string -> Schema, changes: ChangeRows, replayed: ChangeRows, before: Moment, after: Tables, t: Target)
    requires AllSeen(schemas, before) && Leaves(schemas, changes, replayed, Tables(before.rows, before.ledger), after)
    requires t in changes ==> TypedChange(schemas(t.table), changes[t])
    requires forall u :: u in before.changes ==> u in before.histories
    ensures var m := Moment(after.rows, after.ledger, before.changes, Extended(schemas, before, changes, replayed));
            && SeenInv(schemas(t.table), SeenAt(m, t))
            && (t in before.changes && schemas(t.table).revision.Some? ==>
                  (Rewritten(schemas(t.table), m.histories[t]) <==> Rewritten(schemas(t.table), before.histories[t]) || IsPublished(changes, t)))
  {
    hide PublishedOps, ReplayLock, TypedChange, Traced, Rewritten, R.Version, IsPublished, TypedRowOp;
    var s := SeenAt(before, t);
    assert SeenInv(schemas(t.table), s);
    var ops := ReplayLock(replayed, t) + PublishedOps(schemas, changes, t);
    WritesAreTyped(schemas, changes, replayed, t);
    ObserveAllKeeps(schemas(t.table), s, ops);
    if schemas(t.table).revision.Some? {
      RewrittenIffAdvanced(schemas(t.table), s.now, ops);
      assert VersionMoves(schemas(t.table), IsPublished(changes, t), Tables(before.rows, before.ledger), after, t);
    }
  }

  /**
   * No ABA across a publication: every other draft stays traced over it, and conflicts on a row of a
   * revisioned table exactly if it did before or the publication has published that row.
   */
  lemma OtherDraftsSee(schemas: string -> Schema, changes: ChangeRows, replayed: ChangeRows, before: Moment, after: Tables)
    requires AllSeen(schemas, before) && Leaves(schemas, changes, replayed, Tables(before.rows, before.ledger), after)
    requires forall t :: t in changes ==> TypedChange(schemas(t.table), changes[t])
    ensures forall t :: t in before.changes ==> t in before.histories
    ensures var m := Moment(after.rows, after.ledger, before.changes, Extended(schemas, before, changes, replayed));
            && AllSeen(schemas, m)
            && forall t :: t in before.changes && schemas(t.table).revision.Some? ==>
                 (RowConflict(schemas(t.table), m.rows, m.ledger, t, m.changes[t]).Some?
                  <==> RowConflict(schemas(t.table), before.rows, before.ledger, t, before.changes[t]).Some? || IsPublished(changes, t))
  {
    hide SeenInv, Leaves, TypedChange, RowConflict, Rewritten, IsPublished, PublishedOps, ReplayLock;
    forall t | t in before.changes
      ensures t in before.histories
    {
      assert SeenInv(schemas(t.table), SeenAt(before, t));
      ChangedHasHistory(schemas(t.table), SeenAt(before, t));
    }
    var m := Moment(after.rows, after.ledger, before.changes, Extended(schemas, before, changes, replayed));
    forall t: Target
      ensures SeenInv(schemas(t.table), SeenAt(m, t))
    {
      OtherRowSees(schemas, changes, replayed, before, after, t);
    }
    forall t | t in before.changes && schemas(t.table).revision.Some?
      ensures RowConflict(schemas(t.table), m.rows, m.ledger, t, m.changes[t]).Some?
         <==> RowConflict(schemas(t.table), before.rows, before.ledger, t, before.changes[t]).Some? || IsPublished(changes, t)
    {
      OtherRowSees(schemas, changes, replayed, before, after, t);
      ConflictIffRewritten(schemas, before, t);
      ConflictIffRewritten(schemas, m, t);
    }
  }

  /** Publish one of two drafts on the same tables. */
  method PublishBeside(draft: Draft, other: Draft, commands: seq<DraftStatement>, fks: seq<ForeignKey>, inspected: seq<Target>,
                       ghost histories: map<Target, History>, ghost others: map<Target, History>)
    returns (outcome: Result<(), PublishFailure>, ghost others': map<Target, History>)
    requires draft.Valid() && AllSeen(draft.db.schemas, Now(draft, histories))
    requires other.db == draft.db && other.Valid() && AllSeen(other.db.schemas, Now(other, others))
    requires forall i :: 0 <= i < |commands| ==> WellTyped(draft.db.schemas, commands[i])
    requires Distinct(inspected) && forall t :: t in inspected <==> IsPublished(draft.changes, t)
    modifies draft.db
    ensures draft.Valid() && other.Valid() && AllSeen(other.db.schemas, Now(other, others'))
    ensures forall t :: t in other.changes && other.db.schemas(t.table).revision.Some? ==>
              (RowConflict(other.db.schemas(t.table), other.db.rows, other.db.ledger, t, other.changes[t]).Some?
               <==> || old(RowConflict(other.db.schemas(t.table), other.db.rows, other.db.ledger, t, other.changes[t])).Some?
                    || (outcome.Ok? && IsPublished(draft.changes, t)))
  {
    hide AllSeen, TypedChange, RowConflict, TrackedDb.Valid, Leaves, Replays, WellTyped, Passed, PlanOf, Effective, Unpublishable, Rewritten,
      AnyConflict, DifferenceAt, WrittenTables, AllPublishable, StepGraph.Cyclic, DependencyEdges, Reviewable;
    ghost var m := Now(other, others);
    ghost var replay, schedule, states;
    outcome, replay, schedule, states := Publish(draft, commands, fks, inspected, histories);
    others' := others;
    if outcome.Ok? {
      OtherDraftsSee(draft.db.schemas, draft.changes, replay[|commands|].changes, m, Tables(draft.db.rows, draft.db.ledger));
      others' := Extended(draft.db.schemas, m, draft.changes, replay[|commands|].changes);
    }
  }
}
