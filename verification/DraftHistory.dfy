/**
 * What the change rows of a draft remember. Over any run that interleaves the statements of one
 * draft with tracked statements and with the locks of other drafts, every change row records the
 * first touch of its row and, as long as no tracked statement has written the row since, is
 * anchored to it (packages/db/src/draft-mutations.ts, packages/db/src/row-revisions.ts).
 */
module DraftHistory {
  import opened Common
  import opened DraftOverlay
  import opened DraftWrites
  import opened PublishOrder
  import opened CanonicalWrites
  import opened DraftTables
  import R = RowRevisions

  // ---------------------------------------------------------------------------------------
  // The history of one row
  // ---------------------------------------------------------------------------------------

  /** A row as a draft first touched it, once locked, and what has happened to it since. */
  datatype History = History(start: Tracked, ops: seq<RowOp>)

  predicate WritesRow(s: Tracked, op: RowOp) {
    match op
    case InsertRow(_) => s.row.None?
    case UpdateRow(_) => s.row.Some?
    case DeleteRow => s.row.Some?
    case LockRow => false
  }

  /** Some tracked statement has written the row since. */
  ghost predicate Rewritten(schema: Schema, h: History) {
    exists i :: 0 <= i < |h.ops| && WritesRow(ApplyAll(schema, h.start, h.ops[..i]), h.ops[i])
  }

  lemma RewrittenNext(schema: Schema, h: History, op: RowOp)
    ensures Rewritten(schema, h.(ops := h.ops + [op])) <==> Rewritten(schema, h) || WritesRow(ApplyAll(schema, h.start, h.ops), op)
  {
    var longer := h.ops + [op];
    assert longer[..|h.ops|] == h.ops;
    assert forall i :: 0 <= i < |h.ops| ==> longer[..i] == h.ops[..i] && longer[i] == h.ops[i];
    if WritesRow(ApplyAll(schema, h.start, h.ops), op) {
      assert WritesRow(ApplyAll(schema, h.start, longer[..|h.ops|]), longer[|h.ops|]);
    }
    if i :| 0 <= i < |h.ops| && WritesRow(ApplyAll(schema, h.start, h.ops[..i]), h.ops[i]) {
      assert WritesRow(ApplyAll(schema, h.start, longer[..i]), longer[i]);
    }
    if i :| 0 <= i < |longer| && WritesRow(ApplyAll(schema, h.start, longer[..i]), longer[i]) {
      assert i < |h.ops| ==> WritesRow(ApplyAll(schema, h.start, h.ops[..i]), h.ops[i]);
    }
  }

  lemma IdleOp(schema: Schema, s: Tracked, op: RowOp)
    requires !WritesRow(s, op) && (schema.revision.Some? ==> s.ledger.Some?)
    ensures Apply(schema, s, op) == s
  {}

  /** Locks aside, a row nobody writes stays as it is, its ledger entry included. */
  lemma {:induction false} UnwrittenStays(schema: Schema, h: History)
    requires !Rewritten(schema, h) && (schema.revision.Some? ==> h.start.ledger.Some?)
    ensures ApplyAll(schema, h.start, h.ops) == h.start
    decreases |h.ops|
  {
    hide Apply, WritesRow, Rewritten;
    if h.ops != [] {
      var init, last := h.ops[..|h.ops| - 1], h.ops[|h.ops| - 1];
      assert h.ops == init + [last];
      RewrittenNext(schema, h.(ops := init), last);
      UnwrittenStays(schema, h.(ops := init));
      IdleOp(schema, h.start, last);
    }
  }

  /** On a revisioned table this is what the ledger model calls a run with a write. */
  lemma {:induction false} RewrittenIffAnyWrite(schema: Schema, h: History)
    requires Typed(schema, h.start) && schema.revision.Some?
    requires forall i :: 0 <= i < |h.ops| ==> TypedRowOp(schema, h.ops[i])
    ensures Rewritten(schema, h) <==> R.AnyWrite(IdentityIn(schema, h.start), Kinds(h.ops))
    decreases |h.ops|
  {
    if h.ops != [] {
      var init, last := h.ops[..|h.ops| - 1], h.ops[|h.ops| - 1];
      assert h.ops == init + [last];
      assert Kinds(h.ops) == Kinds(init) + [KindOf(last)];
      RewrittenNext(schema, h.(ops := init), last);
      RewrittenIffAnyWrite(schema, h.(ops := init));
      RunMovesIdentity(schema, h.start, init);
      R.AnyWriteAppend(IdentityIn(schema, h.start), Kinds(init), KindOf(last));
    }
  }

  /** The change records its row's first touch, and is anchored to it unless the row has been written since. */
  ghost predicate Traced(schema: Schema, h: History, now: Tracked, change: Change) {
    && Typed(schema, h.start)
    && (schema.revision.Some? ==> h.start.ledger.Some?)
    && (forall i :: 0 <= i < |h.ops| ==> TypedRowOp(schema, h.ops[i]))
    && now == ApplyAll(schema, h.start, h.ops)
    && change.baseExists == h.start.row.Some?
    && (schema.revision.Some? ==> change.baseRevision == R.FirstTouch(IdentityIn(schema, h.start)).baseRevision)
    && (!Rewritten(schema, h) ==> AnchoredChange(schema, h.start.row, change))
  }

  /** A change over a row nobody has written since can be published. */
  ghost predicate PublishableTrace(schema: Schema, h: History, change: Change) {
    !Rewritten(schema, h) ==> !Unpublishable(schema, change)
  }

  // ---------------------------------------------------------------------------------------
  // What happens to one row
  // ---------------------------------------------------------------------------------------

  /** One target: the canonical side, the draft's change row, and since when the draft has one. */
  datatype Seen = Seen(now: Tracked, change: Option<Change>, history: Option<History>)

  /** A tracked statement or somebody's lock. */
  function Observe(schema: Schema, s: Seen, op: RowOp): Seen {
    Seen(Apply(schema, s.now, op), s.change, if s.history.Some? then Some(s.history.value.(ops := s.history.value.ops + [op])) else None)
  }

  /** A write of the draft: its lock, then the upsert. */
  function Touch(schema: Schema, s: Seen, op: DraftOp): Seen {
    var locked := Observe(schema, s, LockRow);
    Seen(locked.now,
         Written(schema, s.now.row, Slot(s.now.ledger, s.change), op).change,
         if s.history.Some? then locked.history else Some(History(locked.now, [])))
  }

  ghost predicate SeenInv(schema: Schema, s: Seen) {
    && Typed(schema, s.now)
    && (s.change.Some? <==> s.history.Some?)
    && (s.change.Some? ==> TypedChange(schema, s.change.value) && Traced(schema, s.history.value, s.now, s.change.value))
  }

  ghost predicate SeenPublishable(schema: Schema, s: Seen) {
    s.change.Some? && s.history.Some? ==> PublishableTrace(schema, s.history.value, s.change.value)
  }

  lemma ObserveKeeps(schema: Schema, s: Seen, op: RowOp)
    requires SeenInv(schema, s) && TypedRowOp(schema, op)
    ensures SeenInv(schema, Observe(schema, s, op))
    ensures SeenPublishable(schema, s) ==> SeenPublishable(schema, Observe(schema, s, op))
  {
    hide AnchoredChange, TypedChange, Unpublishable, Typed, TypedRowOp, Apply, Rewritten;
    ApplyMovesIdentity(schema, s.now, op);
    if s.history.Some? {
      var h := s.history.value;
      RewrittenNext(schema, h, op);
      ApplyAllNext(schema, h.start, h.ops, Some(op));
    }
  }

  /** The first write of a draft to a row records that row's first touch. */
  lemma FirstWriteRecordsFirstTouch(schema: Schema, base: Option<Row>, ledger: Option<int>, values: Row, intent: Operation)
    requires schema.revision.Some? && !(intent == Insert && base.Some?)
    ensures var written := WriteRow(schema, base, ledger, None, values, intent);
            && written.Some?
            && R.RowAnchor(written.value.baseExists, written.value.baseRevision) == R.FirstTouch(IdentityIn(schema, Tracked(base, ledger)))
  {}

  lemma FirstTouchIsTraced(schema: Schema, s: Seen, op: DraftOp)
    requires SeenInv(schema, s) && s.change.None? && ValidOp(schema, op) && Lands(schema, s.now.row, s.change, op)
    ensures SeenInv(schema, Touch(schema, s, op))
    ensures NamesColumn(schema, op) ==> SeenPublishable(schema, Touch(schema, s, op))
  {
    hide ValidOp, R.Valid, Unpublishable, AnchoredChange, TypedChange, NamesColumn;
    var slot, after := Slot(s.now.ledger, s.change), Touch(schema, s, op);
    ApplyMovesIdentity(schema, s.now, LockRow);
    WriteShows(schema, s.now.row, slot, op);
    WriteStaysAnchored(schema, s.now.row, slot, op);
    if NamesColumn(schema, op) {
      WriteStaysPublishable(schema, s.now.row, slot, op);
    }
    AnchoredPresence(schema, s.now.row, after.change.value);
    if schema.revision.Some? {
      FirstWriteAnchors(schema, s, op);
    }
  }

  lemma FirstWriteAnchors(schema: Schema, s: Seen, op: DraftOp)
    requires s.change.None? && schema.revision.Some? && Lands(schema, s.now.row, s.change, op)
    ensures var written := Touch(schema, s, op).change;
            written.Some? && written.value.baseRevision == R.FirstTouch(IdentityIn(schema, Apply(schema, s.now, LockRow))).baseRevision
  {
    hide WriteRow, R.FirstTouch;
    var ledger := Reserved(schema, s.now.ledger);
    match op
    case InsertOp(row) => FirstWriteRecordsFirstTouch(schema, s.now.row, ledger, row, Insert);
    case UpdateOp(patch) =>
      FirstWriteRecordsFirstTouch(schema, s.now.row, ledger, UpdateValues(schema, Effective(schema, s.now.row, None).value, patch), Update);
    case DeleteOp => FirstWriteRecordsFirstTouch(schema, s.now.row, ledger, Effective(schema, s.now.row, None).value, Delete);
  }

  /** A row nobody has written since the first touch is one whose change may be merged as over it. */
  lemma UnwrittenIsRowState(schema: Schema, s: Seen)
    requires SeenInv(schema, s) && s.change.Some? && !Rewritten(schema, s.history.value)
    ensures s.now == s.history.value.start
    ensures RowState(schema, s.now.row, Reserved(schema, s.now.ledger), s.change)
  {
    hide AnchoredChange, TypedChange, Rewritten, R.Valid, TypedRowOp;
    UnwrittenStays(schema, s.history.value);
    AnchoredPresence(schema, s.now.row, s.change.value);
  }

  lemma LaterTouchIsTraced(schema: Schema, s: Seen, op: DraftOp)
    requires SeenInv(schema, s) && s.change.Some? && ValidOp(schema, op) && Lands(schema, s.now.row, s.change, op)
    ensures SeenInv(schema, Touch(schema, s, op))
    ensures NamesColumn(schema, op) && SeenPublishable(schema, s) ==> SeenPublishable(schema, Touch(schema, s, op))
  {
    hide ValidOp, AnchoredChange, TypedChange, Unpublishable, NamesColumn, Rewritten, Typed, Written, Lands, RowState;
    var slot, after := Slot(s.now.ledger, s.change), Touch(schema, s, op);
    ObserveKeeps(schema, s, LockRow);
    RewrittenNext(schema, s.history.value, LockRow);
    TypedHere(schema, s);
    WriteShows(schema, s.now.row, slot, op);
    WrittenKeepsAnchors(schema, s.now.row, slot, op);
    if !Rewritten(schema, s.history.value) {
      UnwrittenIsRowState(schema, s);
      WriteStaysAnchored(schema, s.now.row, slot, op);
      if NamesColumn(schema, op) && SeenPublishable(schema, s) {
        WriteStaysPublishable(schema, s.now.row, slot, op);
      }
    }
  }

  lemma TypedHere(schema: Schema, s: Seen)
    requires SeenInv(schema, s)
    ensures TypedState(schema, s.now.row, s.change)
  {
    hide TypedChange;
  }

  /** Whatever a landed draft write finds, it leaves the change traced. */
  lemma TouchKeeps(schema: Schema, s: Seen, op: DraftOp)
    requires SeenInv(schema, s) && ValidOp(schema, op) && Lands(schema, s.now.row, s.change, op)
    ensures SeenInv(schema, Touch(schema, s, op))
    ensures NamesColumn(schema, op) && SeenPublishable(schema, s) ==> SeenPublishable(schema, Touch(schema, s, op))
  {
    hide SeenInv, SeenPublishable, ValidOp, NamesColumn, Lands, Touch;
    if s.change.None? {
      FirstTouchIsTraced(schema, s, op);
    } else {
      LaterTouchIsTraced(schema, s, op);
    }
  }

  // ---------------------------------------------------------------------------------------
  // The first write shows what a tracked statement would
  // ---------------------------------------------------------------------------------------

  /** The tracked writes that a draft's write stands for; an insert over a row its draft has deleted replaces that row. */
  function StandsFor(schema: Schema, base: Option<Row>, op: DraftOp): seq<RowOp> {
    match op
    case InsertOp(row) => if base.Some? then [DeleteRow, InsertRow(row)] else [InsertRow(row)]
    case UpdateOp(patch) => [UpdateRow(KnownColumns(schema, patch))]
    case DeleteOp => [DeleteRow]
  }

  lemma InsertedIsStored(schema: Schema, row: Row, token: int)
    requires ValidSchema(schema) && ValidInsert(schema, row)
    ensures InsertedRow(schema, row, token) == StoredRow(schema, row, token)
  {
    var inserted, stored := InsertedRow(schema, row, token), StoredRow(schema, row, token);
    assert inserted.Keys == schema.columns == stored.Keys;
    assert forall c :: c in schema.columns ==> inserted[c] == stored[c];
  }

  lemma KnownUpdate(schema: Schema, matched: Row, patch: Row)
    requires ValidSchema(schema)
    ensures KnownColumns(schema, UpdateValues(schema, matched, patch)) == UpdateValues(schema, matched, KnownColumns(schema, patch))
  {}

  lemma ApplyOne(schema: Schema, s: Tracked, op: RowOp)
    ensures ApplyAll(schema, s, [op]) == Apply(schema, s, op)
  {
    assert [op][..0] == [];
  }

  lemma ApplyTwo(schema: Schema, s: Tracked, a: RowOp, b: RowOp)
    ensures ApplyAll(schema, s, [a, b]) == Apply(schema, Apply(schema, s, a), b)
  {
    assert [a, b][..1] == [a];
    ApplyOne(schema, s, a);
  }

  lemma OutcomeIsTracked(schema: Schema, s: Tracked, matched: Option<Row>, op: DraftOp)
    requires Typed(schema, s) && ValidOp(schema, op)
    requires if op.InsertOp? then matched.None? else matched.Some? && matched == s.row
    ensures Outcome(schema, s.row, s.ledger, matched, op) == ApplyAll(schema, s, StandsFor(schema, s.row, op)).row
  {
    hide KnownColumns, UpdateValues, InsertedRow, StoredRow, ValidInsert, ApplyAll;
    match op
    case InsertOp(row) =>
      ApplyOne(schema, s, InsertRow(row));
      ApplyTwo(schema, s, DeleteRow, InsertRow(row));
      var token := PlannedRevision(schema, s.row, Reserved(schema, s.ledger));
      InsertedIsStored(schema, row, token);
      if schema.revision.None? {
        UnversionedRow(schema, row);
      }
    case UpdateOp(patch) =>
      ApplyOne(schema, s, UpdateRow(KnownColumns(schema, patch)));
      KnownUpdate(schema, s.row.value, patch);
    case DeleteOp => ApplyOne(schema, s, DeleteRow);
  }

  lemma UnversionedRow(schema: Schema, row: Row)
    requires schema.revision.None?
    ensures forall a: int, b: int :: StoredRow(schema, row, a) == StoredRow(schema, row, b)
  {
    forall a: int, b: int
      ensures StoredRow(schema, row, a) == StoredRow(schema, row, b)
    {
      assert forall c :: c in schema.columns ==> StoredRow(schema, row, a)[c] == StoredRow(schema, row, b)[c];
    }
  }

  /**
   * The first write of a draft to a row shows, revision included, the row that the tracked statement it stands
   * for would store; so does an insert over a row that the draft has deleted.
   */
  lemma FirstWriteShowsTrackedRow(schema: Schema, s: Tracked, op: DraftOp)
    requires Typed(schema, s) && ValidOp(schema, op)
    ensures Lands(schema, s.row, None, op) ==>
              Effective(schema, s.row, Written(schema, s.row, Slot(s.ledger, None), op).change)
              == ApplyAll(schema, s, StandsFor(schema, s.row, op)).row
    ensures s.row.Some? && op.InsertOp? ==>
              var deleted := Written(schema, s.row, Slot(s.ledger, None), DeleteOp);
              Effective(schema, s.row, Written(schema, s.row, deleted, op).change) == ApplyAll(schema, s, StandsFor(schema, s.row, op)).row
  {
    hide Written, Outcome, ApplyAll, StandsFor, ValidOp, R.Valid;
    var untouched := Slot(s.ledger, None);
    FreshRow(schema, s.row);
    if Lands(schema, s.row, None, op) {
      WriteShows(schema, s.row, untouched, op);
      OutcomeIsTracked(schema, s, Effective(schema, s.row, None), op);
    }
    if s.row.Some? && op.InsertOp? {
      var deleted := Written(schema, s.row, untouched, DeleteOp);
      WriteShows(schema, s.row, untouched, DeleteOp);
      NothingShows(schema, s, deleted, op);
      WriteShows(schema, s.row, deleted, op);
      OutcomeIsTracked(schema, s, None, op);
    }
  }

  lemma FreshRow(schema: Schema, base: Option<Row>)
    ensures Effective(schema, base, None) == base
    ensures ValidOp(schema, DeleteOp) && (base.Some? ==> Lands(schema, base, None, DeleteOp))
  {}

  lemma NothingShows(schema: Schema, s: Tracked, deleted: Slot, op: DraftOp)
    requires s.row.Some? && op.InsertOp? && deleted == Written(schema, s.row, Slot(s.ledger, None), DeleteOp)
    requires Effective(schema, s.row, deleted.change) == Outcome(schema, s.row, s.ledger, s.row, DeleteOp)
    ensures Lands(schema, s.row, deleted.change, op)
    ensures Outcome(schema, s.row, deleted.ledger, None, op) == Outcome(schema, s.row, s.ledger, None, op)
  {}

  // ---------------------------------------------------------------------------------------
  // Runs of statements
  // ---------------------------------------------------------------------------------------

  /** The canonical tables, the draft's change rows, and the history of each row it has touched. */
  datatype Moment = Moment(rows: Rows, ledger: Ledger, changes: ChangeRows, histories: map<Target, History>)

  function SeenAt(m: Moment, t: Target): Seen {
    Seen(StateOf(m.rows, m.ledger, t), Lookup(m.changes, t), Lookup(m.histories, t))
  }

  /** A tracked statement or a lock of another draft, or a statement of this draft. */
  datatype Event = Canonical(tracked: TrackedStatement) | Own(statement: DraftStatement)

  ghost predicate TypedEvent(schemas: string -> Schema, e: Event) {
    match e
    case Canonical(s) => TypedStatement(schemas, s)
    case Own(s) => WellTyped(schemas, s)
  }

  /** An update of the draft names a column of its table, unless it is empty. */
  ghost predicate NamesColumns(schemas: string -> Schema, e: Event) {
    e.Own? && e.statement.UpdateRows? && e.statement.patch != map[] ==> KnownColumns(schemas(e.statement.table), e.statement.patch) != map[]
  }

  ghost function After(schemas: string -> Schema, m: Moment, e: Event, t: Target): Seen {
    match e
    case Canonical(s) =>
      var op := TrackedOp(m.rows, s, t);
      if op.Some? then Observe(schemas(t.table), SeenAt(m, t), op.value) else SeenAt(m, t)
    case Own(s) =>
      var op := DraftOpAt(schemas, m.rows, m.changes, s, t);
      if op.Some? then Touch(schemas(t.table), SeenAt(m, t), op.value) else SeenAt(m, t)
  }

  ghost predicate Follows(schemas: string -> Schema, m: Moment, e: Event, m': Moment) {
    forall t :: SeenAt(m', t) == After(schemas, m, e, t)
  }

  ghost predicate AllSeen(schemas: string -> Schema, m: Moment) {
    forall t: Target :: SeenInv(schemas(t.table), SeenAt(m, t))
  }

  ghost predicate AllPublishable(schemas: string -> Schema, m: Moment) {
    forall t: Target :: SeenPublishable(schemas(t.table), SeenAt(m, t))
  }

  /** One event keeps one target's change traced. */
  lemma EventKeeps(schemas: string -> Schema, m: Moment, e: Event, t: Target)
    requires AllSeen(schemas, m) && TypedEvent(schemas, e)
    ensures SeenInv(schemas(t.table), After(schemas, m, e, t))
    ensures NamesColumns(schemas, e) && AllPublishable(schemas, m) ==> SeenPublishable(schemas(t.table), After(schemas, m, e, t))
  {
    hide SeenInv, SeenPublishable, TypedStatement, WellTyped, TypedRowOp, ValidOp, Lands, Observe, Touch, Accepts;
    assert SeenInv(schemas(t.table), SeenAt(m, t));
    assert AllPublishable(schemas, m) ==> SeenPublishable(schemas(t.table), SeenAt(m, t));
    match e
    case Canonical(s) =>
      hide TrackedOp;
      StatementOpIsTyped(schemas, m.rows, s, t);
      var op := TrackedOp(m.rows, s, t);
      if op.Some? {
        ObserveKeeps(schemas(t.table), SeenAt(m, t), op.value);
      }
    case Own(s) =>
      StatementLands(schemas, m.rows, m.changes, s, t);
      var op := DraftOpAt(schemas, m.rows, m.changes, s, t);
      if op.Some? {
        TouchKeeps(schemas(t.table), SeenAt(m, t), op.value);
      }
  }

  lemma EventsKeep(schemas: string -> Schema, m: Moment, e: Event, m': Moment)
    requires AllSeen(schemas, m) && TypedEvent(schemas, e) && Follows(schemas, m, e, m')
    ensures AllSeen(schemas, m')
    ensures NamesColumns(schemas, e) && AllPublishable(schemas, m) ==> AllPublishable(schemas, m')
  {
    hide SeenInv, SeenPublishable, TypedEvent, NamesColumns, After;
    forall t: Target
      ensures SeenInv(schemas(t.table), SeenAt(m', t))
      ensures NamesColumns(schemas, e) && AllPublishable(schemas, m) ==> SeenPublishable(schemas(t.table), SeenAt(m', t))
    {
      EventKeeps(schemas, m, e, t);
    }
  }

  ghost function Now(draft: Draft, histories: map<Target, History>): Moment
    reads draft, draft.db
  {
    Moment(draft.db.rows, draft.db.ledger, draft.changes, histories)
  }

  /** The histories after an event, one for each change row. */
  ghost function Remembered(schemas: string -> Schema, m: Moment, e: Event, changes: ChangeRows): map<Target, History>
    requires forall t :: t in changes ==> After(schemas, m, e, t).history.Some?
  {
    map t | t in changes :: After(schemas, m, e, t).history.value
  }

  /** Canonical tables an event reports as written; a draft statement reports none. */
  function EventTags(m: Moment, e: Event): set<string> {
    if e.Canonical? then StatementTags(m.rows, e.tracked) else {}
  }

  function RunTags(moments: seq<Moment>, events: seq<Event>): set<string>
    requires |moments| >= |events|
    decreases |events|
  {
    if events == [] then {}
    else
      var n := |events| - 1;
      RunTags(moments[..n], events[..n]) + EventTags(moments[n], events[n])
  }

  lemma {:induction false} RunTagsPrefix(moments: seq<Moment>, more: seq<Moment>, events: seq<Event>)
    requires |moments| >= |events|
    ensures RunTags(moments + more, events) == RunTags(moments, events)
    decreases |events|
  {
    if events != [] {
      var n := |events| - 1;
      assert (moments + more)[..n] == moments[..n];
    }
  }

  lemma NoTags(moments: seq<Moment>, events: seq<Event>)
    ensures RunTags(moments, events[..0]) == {}
  {}

  lemma RunTagsNext(moments: seq<Moment>, last: Moment, events: seq<Event>, k: nat)
    requires k < |events| && |moments| == k + 1
    ensures RunTags(moments + [last], events[..k + 1]) == RunTags(moments, events[..k]) + EventTags(moments[k], events[k])
  {
    assert events[..k + 1][..k] == events[..k];
    assert (moments + [last])[..k] == moments[..k];
    assert moments == moments[..k] + [moments[k]];
    RunTagsPrefix(moments[..k], [moments[k]], events[..k]);
  }

  lemma CanonicalAfter(schemas: string -> Schema, m: Moment, s: TrackedStatement, t: Target)
    ensures var after := After(schemas, m, Canonical(s), t);
            && after.now == Moved(schemas(t.table), StateOf(m.rows, m.ledger, t), TrackedOp(m.rows, s, t))
            && after.change == Lookup(m.changes, t)
  {
    hide TrackedOp, Apply;
  }

  lemma OwnAfter(schemas: string -> Schema, m: Moment, s: DraftStatement, t: Target)
    requires WellTyped(schemas, s)
    ensures var after := After(schemas, m, Own(s), t);
            var slot := SlotAfter(schemas(t.table), Lookup(m.rows, t), Slot(Lookup(m.ledger, t), Lookup(m.changes, t)),
                                  DraftOpAt(schemas, m.rows, m.changes, s, t));
            after.now == Tracked(Lookup(m.rows, t), slot.ledger) && after.change == slot.change
  {
    hide DraftOpAt, Lands, WriteRow, WellTyped;
    StatementLands(schemas, m.rows, m.changes, s, t);
  }

  lemma ChangedHasHistory(schema: Schema, s: Seen)
    requires SeenInv(schema, s)
    ensures s.change.Some? <==> s.history.Some?
  {}

  /** One event, with the histories it leaves. */
  method Step(draft: Draft, e: Event, ghost histories: map<Target, History>) returns (ghost histories': map<Target, History>)
    requires draft.Valid() && TypedEvent(draft.db.schemas, e) && AllSeen(draft.db.schemas, Now(draft, histories))
    modifies draft, draft.db
    ensures draft.Valid()
    ensures Follows(draft.db.schemas, old(Now(draft, histories)), e, Now(draft, histories'))
    ensures draft.db.tablesWritten == old(draft.db.tablesWritten) + EventTags(old(Now(draft, histories)), e)
    ensures e.Own? ==> draft.SameCanonical(old(draft.db.rows), old(draft.db.tablesWritten))
  {
    hide TypedChange, TrackedDb.Valid, Moved, SlotAfter, TrackedOp, DraftOpAt, TypedStatement, WellTyped, After, SeenInv, StatementTags;
    ghost var m := Now(draft, histories);
    match e {
      case Canonical(s) =>
        draft.db.Execute(s);
        forall t {
          CanonicalAfter(draft.db.schemas, m, s, t);
        }
      case Own(s) =>
        var accepted := draft.Execute(s);
        forall t {
          OwnAfter(draft.db.schemas, m, s, t);
        }
    }
    forall t
      ensures draft.db.At(t) == After(draft.db.schemas, m, e, t).now && Lookup(draft.changes, t) == After(draft.db.schemas, m, e, t).change
      ensures t in draft.changes <==> After(draft.db.schemas, m, e, t).history.Some?
    {
      assert draft.db.At(t) == StateOf(draft.db.rows, draft.db.ledger, t);
      assert draft.SlotAt(t) == Slot(Lookup(draft.db.ledger, t), Lookup(draft.changes, t));
      EventKeeps(draft.db.schemas, m, e, t);
      ChangedHasHistory(draft.db.schemas(t.table), After(draft.db.schemas, m, e, t));
    }
    histories' := Remembered(draft.db.schemas, m, e, draft.changes);
  }

  /** The moments of a run, each following from the one before. */
  ghost predicate Chain(schemas: string -> Schema, moments: seq<Moment>, events: seq<Event>) {
    && |moments| == |events| + 1
    && forall i :: 0 <= i < |events| ==> Follows(schemas, moments[i], events[i], moments[i + 1])
  }

  /** Every moment of every run has its changes traced. */
  lemma {:induction false} RunsKeep(schemas: string -> Schema, moments: seq<Moment>, events: seq<Event>, k: nat)
    requires Chain(schemas, moments, events) && k <= |events|
    requires forall i :: 0 <= i < |events| ==> TypedEvent(schemas, events[i])
    requires AllSeen(schemas, moments[0])
    ensures AllSeen(schemas, moments[k])
    ensures (forall i :: 0 <= i < |events| ==> NamesColumns(schemas, events[i])) && AllPublishable(schemas, moments[0]) ==>
              AllPublishable(schemas, moments[k])
  {
    hide AllSeen, AllPublishable, TypedEvent, NamesColumns, Follows;
    if k > 0 {
      RunsKeep(schemas, moments, events, k - 1);
      EventsKeep(schemas, moments[k - 1], events[k - 1], moments[k]);
    }
  }

  /**
   * Any run of tracked statements, other drafts' locks and this draft's statements: at every
   * moment every change row is traced to the row it was first written over.
   */
  method Run(draft: Draft, events: seq<Event>, ghost histories: map<Target, History>) returns (ghost moments: seq<Moment>)
    requires draft.Valid() && forall i :: 0 <= i < |events| ==> TypedEvent(draft.db.schemas, events[i])
    requires AllSeen(draft.db.schemas, Now(draft, histories))
    modifies draft, draft.db
    ensures draft.Valid()
    ensures |moments| == |events| + 1 && Chain(draft.db.schemas, moments, events) && moments[0] == old(Now(draft, histories))
    ensures moments[|events|] == Now(draft, moments[|events|].histories)
    ensures forall i :: 0 <= i <= |events| ==> AllSeen(draft.db.schemas, moments[i])
    ensures (forall i :: 0 <= i < |events| ==> NamesColumns(draft.db.schemas, events[i])) && AllPublishable(draft.db.schemas, moments[0]) ==>
              AllPublishable(draft.db.schemas, moments[|events|])
    ensures (forall i :: 0 <= i < |events| ==> events[i].Own?) ==> draft.SameCanonical(old(draft.db.rows), old(draft.db.tablesWritten))
    ensures draft.db.tablesWritten == old(draft.db.tablesWritten) + RunTags(moments, events)
  {
    hide Draft.Valid, AllSeen, AllPublishable, TypedEvent, NamesColumns, Follows, RunTags, EventTags;
    NoTags([Now(draft, histories)], events);
    moments := [Now(draft, histories)];
    ghost var latest := histories;
    for k := 0 to |events|
      invariant draft.Valid()
      invariant |moments| == k + 1 && moments[0] == old(Now(draft, histories)) && moments[k] == Now(draft, latest)
      invariant forall i :: 0 <= i < k ==> Follows(draft.db.schemas, moments[i], events[i], moments[i + 1])
      invariant AllSeen(draft.db.schemas, moments[k])
      invariant draft.db.tablesWritten == old(draft.db.tablesWritten) + RunTags(moments, events[..k])
      invariant (forall i :: 0 <= i < k ==> events[i].Own?) ==> draft.SameCanonical(old(draft.db.rows), old(draft.db.tablesWritten))
    {
      latest := Step(draft, events[k], latest);
      EventsKeep(draft.db.schemas, moments[k], events[k], Now(draft, latest));
      RunTagsNext(moments, Now(draft, latest), events, k);
      moments := moments + [Now(draft, latest)];
    }
    assert events[..|events|] == events;
    forall k | 0 <= k <= |events|
      ensures AllSeen(draft.db.schemas, moments[k])
    {
      RunsKeep(draft.db.schemas, moments, events, k);
    }
    RunsKeep(draft.db.schemas, moments, events, |events|);
  }

  // ---------------------------------------------------------------------------------------
  // Runs of the draft alone
  // ---------------------------------------------------------------------------------------

  ghost predicate OnlyLocks(m: Moment) {
    forall t, i :: t in m.histories && 0 <= i < |m.histories[t].ops| ==> m.histories[t].ops[i] == LockRow
  }

  /** Exactly the targets a draft has touched have their ledger entry reserved. */
  ghost predicate LedgerReserved(schemas: string -> Schema, before: Ledger, touched: ChangeRows, after: Ledger) {
    forall t: Target :: Lookup(after, t) == if t in touched then Reserved(schemas(t.table), Lookup(before, t)) else Lookup(before, t)
  }

  /** The rows are those of `a`, and the ledger is that of `a` with the touched identities reserved. */
  ghost predicate OnlyReserves(schemas: string -> Schema, a: Moment, b: Moment) {
    && (forall t :: Lookup(b.rows, t) == Lookup(a.rows, t))
    && LedgerReserved(schemas, a.ledger, b.changes, b.ledger)
  }

  lemma OwnAfterReserves(schemas: string -> Schema, m: Moment, s: DraftStatement, t: Target)
    requires WellTyped(schemas, s)
    ensures var after := After(schemas, m, Own(s), t);
            && after.now.row == Lookup(m.rows, t)
            && (after.change.None? ==> Lookup(m.changes, t).None?)
            && after.now.ledger == (if DraftOpAt(schemas, m.rows, m.changes, s, t).Some?
                                    then Reserved(schemas(t.table), Lookup(m.ledger, t)) else Lookup(m.ledger, t))
            && (DraftOpAt(schemas, m.rows, m.changes, s, t).Some? ==> after.change.Some?)
            && (DraftOpAt(schemas, m.rows, m.changes, s, t).None? ==> after.change == Lookup(m.changes, t))
  {
    hide DraftOpAt, WellTyped, NewChange;
    StatementLands(schemas, m.rows, m.changes, s, t);
    var op := DraftOpAt(schemas, m.rows, m.changes, s, t);
    if op.Some? {
      WrittenKeepsAnchors(schemas(t.table), Lookup(m.rows, t), Slot(Lookup(m.ledger, t), Lookup(m.changes, t)), op.value);
    }
  }

  lemma OwnStepReserves(schemas: string -> Schema, a: Moment, m: Moment, e: Event, m': Moment)
    requires Follows(schemas, m, e, m') && e.Own? && TypedEvent(schemas, e) && OnlyReserves(schemas, a, m)
    ensures OnlyReserves(schemas, a, m')
  {
    hide After, DraftOpAt, WellTyped;
    forall t: Target
      ensures Lookup(m'.rows, t) == Lookup(a.rows, t)
      ensures Lookup(m'.ledger, t) == if t in m'.changes then Reserved(schemas(t.table), Lookup(a.ledger, t)) else Lookup(a.ledger, t)
    {
      assert SeenAt(m', t) == After(schemas, m, e, t);
      OwnAfterReserves(schemas, m, e.statement, t);
    }
  }

  lemma OwnStepOnlyLocks(schemas: string -> Schema, m: Moment, e: Event, m': Moment)
    requires Follows(schemas, m, e, m') && e.Own? && OnlyLocks(m)
    ensures OnlyLocks(m')
  {
    hide Written, DraftOpAt;
    forall t
      ensures t in m'.histories ==> forall i :: 0 <= i < |m'.histories[t].ops| ==> m'.histories[t].ops[i] == LockRow
    {
      assert SeenAt(m', t) == After(schemas, m, e, t);
    }
  }

  lemma {:induction false} OwnRunOnlyLocks(schemas: string -> Schema, moments: seq<Moment>, events: seq<Event>, k: nat)
    requires Chain(schemas, moments, events) && k <= |events|
    requires forall i :: 0 <= i < |events| ==> TypedEvent(schemas, events[i]) && events[i].Own?
    requires OnlyLocks(moments[0]) && OnlyReserves(schemas, moments[0], moments[0])
    ensures OnlyLocks(moments[k]) && OnlyReserves(schemas, moments[0], moments[k])
  {
    hide Follows, OnlyLocks, OnlyReserves, TypedEvent;
    if k > 0 {
      OwnRunOnlyLocks(schemas, moments, events, k - 1);
      OwnStepOnlyLocks(schemas, moments[k - 1], events[k - 1], moments[k]);
      OwnStepReserves(schemas, moments[0], moments[k - 1], events[k - 1], moments[k]);
    }
  }

  /** A fresh draft written while nothing else moves is anchored to the rows as they stand, on tables of either kind. */
  lemma OwnRunIsAnchored(schemas: string -> Schema, moments: seq<Moment>, events: seq<Event>)
    requires Chain(schemas, moments, events)
    requires forall i :: 0 <= i < |events| ==> TypedEvent(schemas, events[i]) && events[i].Own?
    requires AllSeen(schemas, moments[0]) && moments[0].histories == map[] && moments[0].changes == map[]
    ensures OnlyReserves(schemas, moments[0], moments[|events|])
    ensures forall t :: t in moments[|events|].changes ==>
              AnchoredChange(schemas(t.table), Lookup(moments[0].rows, t), moments[|events|].changes[t])
  {
    hide Follows, TypedEvent, AnchoredChange, SeenPublishable;
    var last := moments[|events|];
    OwnRunOnlyLocks(schemas, moments, events, |events|);
    RunsKeep(schemas, moments, events, |events|);
    forall t | t in last.changes
      ensures AnchoredChange(schemas(t.table), Lookup(moments[0].rows, t), last.changes[t])
    {
      hide Typed, TypedChange;
      assert SeenInv(schemas(t.table), SeenAt(last, t));
      var h := last.histories[t];
      assert !Rewritten(schemas(t.table), h);
      UnwrittenStays(schemas(t.table), h);
    }
  }
}
