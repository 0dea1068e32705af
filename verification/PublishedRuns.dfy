/**
 * A publication is a run of tracked writes (packages/server/src/draft-publication.ts,
 * packages/db/src/row-revisions.ts): at every target it leaves the row and the ledger entry that
 * its deletes, inserts and updates leave, so revisions keep climbing across it and other drafts see
 * it as they see any other write.
 */
module PublishedRuns {
  import opened Common
  import opened DraftOverlay
  import opened DraftWrites
  import opened PublishOrder
  import opened CanonicalWrites
  import opened DraftHistory
  import opened Publication
  import opened PublishChanges
  import R = RowRevisions

  // ---------------------------------------------------------------------------------------
  // The writes of one reviewed change
  // ---------------------------------------------------------------------------------------

  function Repeat(op: RowOp, n: nat): seq<RowOp> {
    seq(n, i => op)
  }

  /** How far the reviewed revision is past the anchored one. */
  function Climb(schema: Schema, change: Change): nat {
    if schema.revision.Some? && schema.revision.value in change.fields && change.fields[schema.revision.value].proposed.Num?
       && change.baseRevision.Some? && change.fields[schema.revision.value].proposed.n > change.baseRevision.value
    then change.fields[schema.revision.value].proposed.n - change.baseRevision.value
    else 0
  }

  /** One delete for a row that goes or is replaced, one insert for a row that comes, and an update for each revision still to climb. */
  function PublicationOps(schema: Schema, change: Change): seq<RowOp> {
    var values := ReviewedValues(schema, change);
    match change.operation
    case Delete => [DeleteRow]
    case Update =>
      if schema.revision.Some? then Repeat(UpdateRow(values), Climb(schema, change))
      else if values == map[] then []
      else [UpdateRow(values)]
    case Insert =>
      (if change.baseExists then [DeleteRow] else []) + [InsertRow(values)]
      + (if Climb(schema, change) > 0 then Repeat(UpdateRow(values), Climb(schema, change) - 1) else [])
  }

  lemma {:induction false} ApplyAllConcat(schema: Schema, s: Tracked, a: seq<RowOp>, b: seq<RowOp>)
    ensures ApplyAll(schema, s, a + b) == ApplyAll(schema, ApplyAll(schema, s, a), b)
  {
    if b == [] {
      assert a + b == a;
    } else {
      assert (a + b)[..|a + b| - 1] == a + b[..|b| - 1];
      ApplyAllConcat(schema, s, a, b[..|b| - 1]);
    }
  }

  /** Repeating an update patches once and bumps every time. */
  lemma {:induction false} RepeatClimbs(schema: Schema, s: Tracked, values: Row, n: nat)
    requires schema.revision.Some? && s.row.Some? && ValidRow(schema, s.row.value) && TypedRowOp(schema, UpdateRow(values))
    ensures var row := s.row.value;
            var reached := ApplyAll(schema, s, Repeat(UpdateRow(values), n));
            && reached.ledger == s.ledger
            && reached.row == Some((if n > 0 then row + values else row)[schema.revision.value := Num(RevisionOf(schema, row) + n)])
  {
    var r, row := schema.revision.value, s.row.value;
    if n == 0 {
      assert row[r := Num(RevisionOf(schema, row))] == row;
    } else {
      RepeatClimbs(schema, s, values, n - 1);
      assert Repeat(UpdateRow(values), n)[..n - 1] == Repeat(UpdateRow(values), n - 1);
      var before := (if n > 1 then row + values else row)[r := Num(RevisionOf(schema, row) + n - 1)];
      assert before + UpdateValues(schema, before, values) == (row + values)[r := Num(RevisionOf(schema, row) + n)];
    }
  }

  /** What the run lemmas assume of a reviewed change: it is anchored to a typed row and can be published. */
  ghost predicate ToPublish(start: Start, t: Target, change: Change) {
    && Reviewed(start, t, change)
    && Typed(start.schemas(t.table), StateOf(start.rows, start.ledger, t))
    && !Unpublishable(start.schemas(t.table), change)
  }

  function PublishedState(start: Start, t: Target, change: Change): Tracked {
    Tracked(Published(start.schemas(t.table), start.rows, t, change), EntryPublished(start, t, change))
  }

  lemma OpsAreTyped(schema: Schema, change: Change)
    requires change.fields.Keys <= schema.columns
    ensures forall i :: 0 <= i < |PublicationOps(schema, change)| ==> TypedRowOp(schema, PublicationOps(schema, change)[i])
  {}

  /** A deleted row leaves its last revision in the ledger. */
  lemma DeleteIsRun(start: Start, t: Target, change: Change)
    requires ToPublish(start, t, change) && change.operation == Delete
    ensures ApplyAll(start.schemas(t.table), StateOf(start.rows, start.ledger, t), PublicationOps(start.schemas(t.table), change))
         == PublishedState(start, t, change)
  {
    hide ValidRow;
    ApplyOne(start.schemas(t.table), StateOf(start.rows, start.ledger, t), DeleteRow);
  }

  lemma UpdateFacts(start: Start, t: Target, change: Change)
    requires ToPublish(start, t, change) && change.operation == Update
    ensures var schema := start.schemas(t.table);
            var values, final := ReviewedValues(schema, change), Published(schema, start.rows, t, change);
            && t in start.rows && ValidRow(schema, start.rows[t]) && TypedRowOp(schema, UpdateRow(values))
            && final.Some? && final.value == start.rows[t] + values + RevisionPatch(schema, final.value)
            && (schema.revision.Some? ==>
                  && Climb(schema, change) >= 1
                  && RevisionOf(schema, final.value) == RevisionOf(schema, start.rows[t]) + Climb(schema, change))
  {
    var schema := start.schemas(t.table);
    FinalFromValues(schema, start.rows, start.ledger, t, change);
    ReviewedFacts(schema, start.rows, start.ledger, t, change);
  }

  lemma UpdateIsRun(start: Start, t: Target, change: Change)
    requires ToPublish(start, t, change) && change.operation == Update
    ensures ApplyAll(start.schemas(t.table), StateOf(start.rows, start.ledger, t), PublicationOps(start.schemas(t.table), change))
         == PublishedState(start, t, change)
  {
    hide ToPublish, ReviewedValues, Published, RevisionOf, Climb, TypedRowOp, ValidRow;
    var schema, s := start.schemas(t.table), StateOf(start.rows, start.ledger, t);
    var values := ReviewedValues(schema, change);
    UpdateFacts(start, t, change);
    var row, final := start.rows[t], Published(schema, start.rows, t, change).value;
    if schema.revision.Some? {
      RepeatClimbs(schema, s, values, Climb(schema, change));
      assert final == (row + values)[schema.revision.value := Num(RevisionOf(schema, final))];
    } else {
      assert row + values + map[] == row + values;
      assert values == map[] ==> row + values == row;
      ApplyOne(schema, s, UpdateRow(values));
    }
  }

  /** The state an insert finds: the row is gone, and the ledger holds the anchored revision. */
  lemma ClearedIsRun(start: Start, t: Target, change: Change)
    requires ToPublish(start, t, change) && change.operation == Insert
    ensures ApplyAll(start.schemas(t.table), StateOf(start.rows, start.ledger, t), if change.baseExists then [DeleteRow] else [])
         == Tracked(None, EntryReached(start.schemas(t.table), Lookup(start.ledger, t), change, true, false))
  {
    hide ValidRow;
    ApplyOne(start.schemas(t.table), StateOf(start.rows, start.ledger, t), DeleteRow);
  }

  /** An insert over an absent row, and the climb after it. */
  lemma InsertClimbs(schema: Schema, gone: Tracked, values: Row, n: nat)
    requires ValidSchema(schema) && schema.revision.Some? && gone.row.None? && gone.ledger.Some?
    requires TypedRowOp(schema, UpdateRow(values))
    ensures ApplyAll(schema, gone, [InsertRow(values)] + Repeat(UpdateRow(values), n))
         == Tracked(Some(StoredRow(schema, values, gone.ledger.value + 1 + n)), Some(gone.ledger.value + 1))
  {
    hide StoredRow, RevisionOf;
    var token := gone.ledger.value + 1;
    ApplyAllConcat(schema, gone, [InsertRow(values)], Repeat(UpdateRow(values), n));
    ApplyOne(schema, gone, InsertRow(values));
    StoredRowClimbs(schema, values, token, token + n);
    RepeatClimbs(schema, Tracked(Some(StoredRow(schema, values, token)), Some(token)), values, n);
  }

  lemma InsertFacts(start: Start, t: Target, change: Change)
    requires ToPublish(start, t, change) && change.operation == Insert
    ensures var schema := start.schemas(t.table);
            var final := Published(schema, start.rows, t, change);
            && ValidSchema(schema) && TypedRowOp(schema, UpdateRow(ReviewedValues(schema, change)))
            && final.Some? && final.value == StoredRow(schema, ReviewedValues(schema, change), RevisionOf(schema, final.value))
            && (schema.revision.Some? ==>
                  && change.baseRevision.Some? && Climb(schema, change) >= 1
                  && RevisionOf(schema, final.value) == change.baseRevision.value + Climb(schema, change)
                  && EntryReached(schema, Lookup(start.ledger, t), change, true, false) == change.baseRevision)
  {
    var schema := start.schemas(t.table);
    FinalFromValues(schema, start.rows, start.ledger, t, change);
    ReviewedFacts(schema, start.rows, start.ledger, t, change);
  }

  lemma InsertIsRun(start: Start, t: Target, change: Change)
    requires ToPublish(start, t, change) && change.operation == Insert
    ensures ApplyAll(start.schemas(t.table), StateOf(start.rows, start.ledger, t), PublicationOps(start.schemas(t.table), change))
         == PublishedState(start, t, change)
  {
    hide ToPublish, ReviewedValues, Published, StoredRow, RevisionOf, Climb, TypedRowOp, ApplyAll, Repeat;
    var schema, s := start.schemas(t.table), StateOf(start.rows, start.ledger, t);
    var values := ReviewedValues(schema, change);
    var cleared := if change.baseExists then [DeleteRow] else [];
    var gone := Tracked(None, EntryReached(schema, s.ledger, change, true, false));
    ClearedIsRun(start, t, change);
    InsertFacts(start, t, change);
    var final := Published(schema, start.rows, t, change).value;
    var climb := if Climb(schema, change) > 0 then Repeat(UpdateRow(values), Climb(schema, change) - 1) else [];
    ApplyAllConcat(schema, s, cleared, [InsertRow(values)] + climb);
    assert PublicationOps(schema, change) == cleared + ([InsertRow(values)] + climb);
    if schema.revision.Some? {
      InsertClimbs(schema, gone, values, Climb(schema, change) - 1);
    } else {
      NoClimb(schema, change);
      assert [InsertRow(values)] + climb == [InsertRow(values)];
      ApplyOne(schema, gone, InsertRow(values));
      TokenIsUnused(schema, values, if gone.ledger.Some? then gone.ledger.value + 1 else 1, RevisionOf(schema, final));
    }
  }

  lemma NoClimb(schema: Schema, change: Change)
    requires schema.revision.None?
    ensures Climb(schema, change) == 0
  {}

  /** Publishing a change is running its writes, in row and in ledger. */
  lemma PublicationIsRun(start: Start, t: Target, change: Change)
    requires ToPublish(start, t, change)
    ensures ApplyAll(start.schemas(t.table), StateOf(start.rows, start.ledger, t), PublicationOps(start.schemas(t.table), change))
         == PublishedState(start, t, change)
  {
    hide ToPublish, PublicationOps, PublishedState;
    match change.operation
    case Delete => DeleteIsRun(start, t, change);
    case Update => UpdateIsRun(start, t, change);
    case Insert => InsertIsRun(start, t, change);
  }

  /** The writes of a whole draft at one target. */
  function PublishedOps(schemas: string -> Schema, changes: map<Target, Change>, t: Target): seq<RowOp> {
    if t in changes && Reviewable(changes[t]) then PublicationOps(schemas(t.table), changes[t]) else []
  }

  /** A whole publication is, at every target, the run of its writes there. */
  lemma PublicationIsRuns(start: Start, changes: map<Target, Change>, inspected: seq<Target>, rows: Rows, ledger: Ledger)
    requires Publishable(start, changes, inspected)
    requires forall t: Target :: Typed(start.schemas(t.table), StateOf(start.rows, start.ledger, t))
    requires forall t :: t in inspected ==> !Unpublishable(start.schemas(t.table), changes[t])
    requires forall t :: Lookup(rows, t) == Effective(start.schemas(t.table), Lookup(start.rows, t), Lookup(changes, t))
    requires forall t :: Lookup(ledger, t) == if t in inspected then EntryPublished(start, t, changes[t]) else Lookup(start.ledger, t)
    ensures forall t: Target ::
              StateOf(rows, ledger, t) == ApplyAll(start.schemas(t.table), StateOf(start.rows, start.ledger, t), PublishedOps(start.schemas, changes, t))
  {
    hide Typed, Unpublishable, Reviewed, EntryPublished, PublicationOps;
    forall t: Target
      ensures StateOf(rows, ledger, t) == ApplyAll(start.schemas(t.table), StateOf(start.rows, start.ledger, t), PublishedOps(start.schemas, changes, t))
    {
      assert Typed(start.schemas(t.table), StateOf(start.rows, start.ledger, t));
      if t in inspected {
        PublicationIsRun(start, t, changes[t]);
      }
    }
  }

  // ---------------------------------------------------------------------------------------
  // Revisions across a publication
  // ---------------------------------------------------------------------------------------

  /** The first of the writes finds the row it needs, so a published row of a revisioned table has been written. */
  lemma PublicationWrites(start: Start, t: Target, change: Change)
    requires ToPublish(start, t, change) && start.schemas(t.table).revision.Some?
    ensures Rewritten(start.schemas(t.table), History(StateOf(start.rows, start.ledger, t), PublicationOps(start.schemas(t.table), change)))
  {
    var schema, s := start.schemas(t.table), StateOf(start.rows, start.ledger, t);
    var ops := PublicationOps(schema, change);
    PublicationIsNotEmpty(start, t, change);
    assert ops[..0] == [];
    assert WritesRow(ApplyAll(schema, s, ops[..0]), ops[0]);
  }

  lemma PublicationIsNotEmpty(start: Start, t: Target, change: Change)
    requires ToPublish(start, t, change) && start.schemas(t.table).revision.Some?
    ensures var ops := PublicationOps(start.schemas(t.table), change);
            |ops| > 0 && WritesRow(StateOf(start.rows, start.ledger, t), ops[0])
  {
    hide ReviewedValues, ValidRow, RevisionOnly;
  }

  /** A publication moves the version of every row it publishes forward, and a row it deletes leaves its last revision behind. */
  lemma PublicationAdvances(start: Start, t: Target, change: Change)
    requires ToPublish(start, t, change) && start.schemas(t.table).revision.Some?
    ensures Typed(start.schemas(t.table), PublishedState(start, t, change))
    ensures R.Version(IdentityIn(start.schemas(t.table), PublishedState(start, t, change)))
          > R.Version(IdentityIn(start.schemas(t.table), StateOf(start.rows, start.ledger, t)))
    ensures change.operation == Delete ==>
              t in start.rows && PublishedState(start, t, change) == Tracked(None, Some(RevisionOf(start.schemas(t.table), start.rows[t])))
  {
    hide PublishedState, PublicationOps, Reviewed, Rewritten, R.Version;
    var schema, s := start.schemas(t.table), StateOf(start.rows, start.ledger, t);
    var ops := PublicationOps(schema, change);
    PublicationIsRun(start, t, change);
    PublicationWrites(start, t, change);
    KnownFields(start, t, change);
    OpsAreTyped(schema, change);
    RunMovesIdentity(schema, s, ops);
    RewrittenIffAnyWrite(schema, History(s, ops));
    R.RunAdvances(IdentityIn(schema, s), Kinds(ops));
    if change.operation == Delete {
      DeletedState(start, t, change);
    }
  }

  lemma KnownFields(start: Start, t: Target, change: Change)
    requires Reviewed(start, t, change)
    ensures change.fields.Keys <= start.schemas(t.table).columns
  {}

  lemma DeletedState(start: Start, t: Target, change: Change)
    requires Reviewed(start, t, change) && start.schemas(t.table).revision.Some? && change.operation == Delete
    ensures t in start.rows && PublishedState(start, t, change) == Tracked(None, Some(RevisionOf(start.schemas(t.table), start.rows[t])))
  {}

  /** The version grows over a run exactly if it writes the row, and without a write the row stays. */
  lemma RewrittenIffAdvanced(schema: Schema, s: Tracked, ops: seq<RowOp>)
    requires Typed(schema, s) && schema.revision.Some? && forall i :: 0 <= i < |ops| ==> TypedRowOp(schema, ops[i])
    ensures R.Version(IdentityIn(schema, ApplyAll(schema, s, ops))) >= R.Version(IdentityIn(schema, s))
    ensures Rewritten(schema, History(s, ops)) <==> R.Version(IdentityIn(schema, ApplyAll(schema, s, ops))) > R.Version(IdentityIn(schema, s))
  {
    hide R.Version, Rewritten;
    RunMovesIdentity(schema, s, ops);
    RewrittenIffAnyWrite(schema, History(s, ops));
    R.RunAdvances(IdentityIn(schema, s), Kinds(ops));
  }

  // ---------------------------------------------------------------------------------------
  // What other drafts see of it
  // ---------------------------------------------------------------------------------------

  function ObserveAll(schema: Schema, s: Seen, ops: seq<RowOp>): Seen {
    if ops == [] then s else Observe(schema, ObserveAll(schema, s, ops[..|ops| - 1]), ops[|ops| - 1])
  }

  /** Another draft's change stays traced over any writes, and its row has been written since if it had been or these write it. */
  lemma {:induction false} ObserveAllKeeps(schema: Schema, s: Seen, ops: seq<RowOp>)
    requires SeenInv(schema, s) && forall i :: 0 <= i < |ops| ==> TypedRowOp(schema, ops[i])
    ensures var after := ObserveAll(schema, s, ops);
            && SeenInv(schema, after)
            && after.now == ApplyAll(schema, s.now, ops)
            && after.change == s.change
            && (s.history.Some? <==> after.history.Some?)
            && (s.history.Some? ==>
                  && after.history.value == s.history.value.(ops := s.history.value.ops + ops)
                  && (Rewritten(schema, after.history.value) <==> Rewritten(schema, s.history.value) || Rewritten(schema, History(s.now, ops))))
  {
    hide Apply, Typed, TypedRowOp, TypedChange, Rewritten, AnchoredChange, WritesRow;
    if ops == [] {
      NothingRewritten(schema, s.now);
      assert s.history.Some? ==> s.history.value.ops + [] == s.history.value.ops;
    } else {
      var init, last := ops[..|ops| - 1], ops[|ops| - 1];
      ObserveAllKeeps(schema, s, init);
      var before := ObserveAll(schema, s, init);
      ObserveKeeps(schema, before, last);
      assert ops == init + [last];
      RewrittenNext(schema, History(s.now, init), last);
      if s.history.Some? {
        RewrittenNext(schema, before.history.value, last);
        HasChange(schema, before);
        assert s.history.value.ops + init + [last] == s.history.value.ops + ops;
      }
    }
  }

  lemma NothingRewritten(schema: Schema, s: Tracked)
    ensures !Rewritten(schema, History(s, []))
  {}

  lemma HasChange(schema: Schema, s: Seen)
    requires SeenInv(schema, s) && s.history.Some?
    ensures s.now == ApplyAll(schema, s.history.value.start, s.history.value.ops)
  {}
}
