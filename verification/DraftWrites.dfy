/**
 * Draft writes: one sparse upsert per row, keeping first-touch anchors
 * (packages/db/src/draft-mutations.ts, packages/db/src/draft-select-builder.ts).
 */
module DraftWrites {
  import opened Common
  import opened DraftOverlay

  // ---------------------------------------------------------------------------------------
  // One row
  // ---------------------------------------------------------------------------------------

  /** The integer in a row's revision column. */
  function RevisionOf(schema: Schema, row: Row): int {
    if schema.revision.Some? && schema.revision.value in row && row[schema.revision.value].Num?
    then row[schema.revision.value].n
    else 0
  }

  function AnchorOf(base: Option<Row>, c: Column): Anchor {
    if base.Some? && c in base.value then Present(base.value[c]) else Absent
  }

  /** The columns a write proposes: known ones, and never a caller's revision on insert. */
  function CollectedColumns(schema: Schema, values: Row, intent: Operation): set<Column> {
    set c | c in values.Keys && c in schema.columns && !(intent == Insert && Some(c) == schema.revision)
  }

  /** The revision a draft insert plans: one past the canonical row, or past the durable ledger. */
  function PlannedRevision(schema: Schema, base: Option<Row>, ledger: Option<int>): int {
    if base.Some? then RevisionOf(schema, base.value) + 1
    else if ledger.Some? then ledger.value + 1
    else 1
  }

  function ProposedFields(schema: Schema, base: Option<Row>, ledger: Option<int>, values: Row, intent: Operation): map<Column, Field> {
    var fields := map c | c in CollectedColumns(schema, values, intent) :: Field(AnchorOf(base, c), values[c]);
    if intent == Insert && schema.revision.Some? then
      var r := schema.revision.value;
      fields[r := Field(AnchorOf(base, r), Num(PlannedRevision(schema, base, ledger)))]
    else fields
  }

  function NewChange(schema: Schema, base: Option<Row>, ledger: Option<int>, values: Row, intent: Operation): Change {
    Change(intent, base.Some?,
           if schema.revision.None? then None else if base.Some? then Some(RevisionOf(schema, base.value)) else ledger,
           ProposedFields(schema, base, ledger, values, intent))
  }

  /** `ON CONFLICT DO UPDATE`: merge the new change into the draft's existing one. */
  function Reconcile(existing: Change, excluded: Change): Change {
    existing.(
      operation := if excluded.operation == Delete then Delete
                   else if existing.operation == Insert then Insert
                   else excluded.operation,
      fields := existing.fields + map c | c in excluded.fields ::
        if c in existing.fields then existing.fields[c].(proposed := excluded.fields[c].proposed) else excluded.fields[c])
  }

  /** An insert is refused when the row is effectively present; any other write always lands. */
  predicate InsertAvailable(base: Option<Row>, existing: Option<Change>) {
    match existing
    case Some(change) => change.operation == Delete
    case None => base.None?
  }

  /** The change row after one upsert, or `None` when an insert is refused. */
  function WriteRow(schema: Schema, base: Option<Row>, ledger: Option<int>, existing: Option<Change>, values: Row, intent: Operation)
    : Option<Change>
  {
    if intent == Insert && !InsertAvailable(base, existing) then None
    else
      var excluded := NewChange(schema, base, ledger, values, intent);
      Some(match existing case None => excluded case Some(change) => Reconcile(change, excluded))
  }

  /** The columns of a supplied row that the table has: other properties are dropped. */
  function KnownColumns(schema: Schema, row: Row): Row {
    map c | c in row.Keys && c in schema.columns :: row[c]
  }

  /** The values an update statement writes to one matched row. */
  function UpdateValues(schema: Schema, matched: Row, patch: Row): Row {
    if schema.revision.Some? then patch[schema.revision.value := Num(RevisionOf(schema, matched) + 1)] else patch
  }

  /** The row an accepted insert makes visible. */
  function InsertedRow(schema: Schema, row: Row, revision: int): Row {
    if schema.revision.Some? then KnownColumns(schema, row)[schema.revision.value := Num(revision)] else KnownColumns(schema, row)
  }

  // ---------------------------------------------------------------------------------------
  // One write of a draft statement
  // ---------------------------------------------------------------------------------------

  datatype DraftOp = InsertOp(row: Row) | UpdateOp(patch: Row) | DeleteOp

  /** What a draft keeps of a target beside its canonical row. */
  datatype Slot = Slot(ledger: Option<int>, change: Option<Change>)

  /** `lockRowRevision` before the write: the identity gets a ledger entry if it has none. */
  function Reserved(schema: Schema, ledger: Option<int>): Option<int> {
    if schema.revision.Some? && ledger.None? then Some(0) else ledger
  }

  function LockedSlot(schema: Schema, slot: Slot): Slot {
    slot.(ledger := Reserved(schema, slot.ledger))
  }

  /** Whether a statement writes the row: an insert needs it effectively absent, the others present. */
  predicate Lands(schema: Schema, base: Option<Row>, change: Option<Change>, op: DraftOp) {
    Effective(schema, base, change).None? <==> op.InsertOp?
  }

  /** The lock, then one upsert. */
  function Written(schema: Schema, base: Option<Row>, slot: Slot, op: DraftOp): Slot {
    if !Lands(schema, base, slot.change, op) then slot
    else
      var ledger := Reserved(schema, slot.ledger);
      Slot(ledger, match op
                   case InsertOp(row) => WriteRow(schema, base, ledger, slot.change, row, Insert)
                   case UpdateOp(patch) =>
                     WriteRow(schema, base, ledger, slot.change, UpdateValues(schema, Effective(schema, base, slot.change).value, patch), Update)
                   case DeleteOp => WriteRow(schema, base, ledger, slot.change, Effective(schema, base, slot.change).value, Delete))
  }

  /** The effective row a landed write leaves, `matched` being the row it found. */
  function Outcome(schema: Schema, base: Option<Row>, ledger: Option<int>, matched: Option<Row>, op: DraftOp): Option<Row> {
    match op
    case InsertOp(row) => Some(InsertedRow(schema, row, PlannedRevision(schema, base, Reserved(schema, ledger))))
    case UpdateOp(patch) => if matched.Some? then Some(matched.value + KnownColumns(schema, UpdateValues(schema, matched.value, patch))) else None
    case DeleteOp => None
  }

  /** A patch may name neither the key nor the system-managed revision. */
  ghost predicate ValidPatch(schema: Schema, patch: Row) {
    schema.pk !in patch && (schema.revision.Some? ==> schema.revision.value !in patch)
  }

  /** A complete insert row: every column but the revision, which is never supplied. */
  ghost predicate ValidInsert(schema: Schema, row: Row) {
    && schema.columns <= row.Keys + RevisionColumns(schema)
    && row.Keys !! RevisionColumns(schema)
  }

  function RevisionColumns(schema: Schema): set<Column> {
    if schema.revision.Some? then {schema.revision.value} else {}
  }

  ghost predicate ValidOp(schema: Schema, op: DraftOp) {
    match op
    case InsertOp(row) => ValidInsert(schema, row)
    case UpdateOp(patch) => ValidPatch(schema, patch)
    case DeleteOp => true
  }

  // ---------------------------------------------------------------------------------------
  // Typed change rows, whatever has happened to the canonical row
  // ---------------------------------------------------------------------------------------

  ghost predicate RevisionedRow(schema: Schema, row: Row) {
    schema.revision.Some? ==> schema.revision.value in row && row[schema.revision.value].Num?
  }

  ghost predicate ValidRow(schema: Schema, row: Row) {
    ValidSchema(schema) && row.Keys == schema.columns && RevisionedRow(schema, row)
  }

  /** Known columns only, and a planned revision as long as the row is visible. */
  ghost predicate TypedChange(schema: Schema, change: Change) {
    && change.fields.Keys <= schema.columns
    && (schema.revision.Some? ==>
          var r := schema.revision.value;
          && (change.operation != Delete ==> r in change.fields)
          && (r in change.fields ==> change.fields[r].proposed.Num?))
  }

  ghost predicate TypedState(schema: Schema, base: Option<Row>, change: Option<Change>) {
    && ValidSchema(schema)
    && (base.Some? ==> ValidRow(schema, base.value))
    && (change.Some? ==> TypedChange(schema, change.value))
  }

  lemma EffectiveRowIsTyped(schema: Schema, base: Option<Row>, change: Option<Change>)
    requires TypedState(schema, base, change)
    ensures var row := Effective(schema, base, change);
            row.Some? ==> ValidRow(schema, row.value)
  {}

  /** Nothing a later write does moves an anchor. */
  ghost predicate AnchorsKept(before: Change, after: Change) {
    && after.baseExists == before.baseExists
    && after.baseRevision == before.baseRevision
    && forall c :: c in before.fields ==> c in after.fields && after.fields[c].original == before.fields[c].original
  }

  lemma LaterWritesKeepAnchors(schema: Schema, base: Option<Row>, ledger: Option<int>, existing: Change, values: Row, intent: Operation)
    ensures var after := WriteRow(schema, base, ledger, Some(existing), values, intent);
            after.Some? ==> AnchorsKept(existing, after.value)
  {}

  lemma WrittenKeepsAnchors(schema: Schema, base: Option<Row>, slot: Slot, op: DraftOp)
    ensures slot.change.Some? ==>
              var after := Written(schema, base, slot, op).change;
              after.Some? && AnchorsKept(slot.change.value, after.value)
  {
    hide NewChange;
  }

  /** The merged fields: new proposals win, first-touch originals stay. */
  lemma WrittenField(schema: Schema, base: Option<Row>, ledger: Option<int>, existing: Option<Change>, values: Row, intent: Operation, c: Column)
    requires WriteRow(schema, base, ledger, existing, values, intent).Some?
    ensures var written := WriteRow(schema, base, ledger, existing, values, intent).value;
            var excluded := NewChange(schema, base, ledger, values, intent);
            && (c in written.fields <==> (existing.Some? && c in existing.value.fields) || c in excluded.fields)
            && (c in excluded.fields ==> written.fields[c].proposed == excluded.fields[c].proposed)
            && (existing.Some? && c in existing.value.fields ==> written.fields[c].original == existing.value.fields[c].original)
            && (existing.Some? && c in existing.value.fields && c !in excluded.fields ==> written.fields[c] == existing.value.fields[c])
            && ((existing.None? || c !in existing.value.fields) && c in excluded.fields ==> written.fields[c] == excluded.fields[c])
  {}

  lemma EffectiveFromCells(schema: Schema, base: Option<Row>, change: Change, row: Row)
    requires change.operation != Delete && row.Keys == schema.columns
    requires forall c :: c in schema.columns ==> EffectiveCell(base, change.fields, c) == row[c]
    ensures Effective(schema, base, Some(change)) == Some(row)
  {
    assert Effective(schema, base, Some(change)).value == row;
  }

  lemma UpdatedCell(schema: Schema, base: Option<Row>, ledger: Option<int>, existing: Option<Change>, values: Row, matched: Row, c: Column)
    requires Effective(schema, base, existing) == Some(matched) && matched.Keys == schema.columns
    requires c in schema.columns
    ensures var written := WriteRow(schema, base, ledger, existing, values, Update);
            && written.Some?
            && EffectiveCell(base, written.value.fields, c) == (if c in values then values[c] else matched[c])
  {
    WrittenField(schema, base, ledger, existing, values, Update, c);
  }

  /** An update patches exactly the effective row it matched, and bumps its revision. */
  lemma UpdateRowEffect(schema: Schema, base: Option<Row>, slot: Slot, patch: Row)
    requires TypedState(schema, base, slot.change) && Effective(schema, base, slot.change).Some?
    requires ValidPatch(schema, patch)
    ensures var matched := Effective(schema, base, slot.change).value;
            var written := Written(schema, base, slot, UpdateOp(patch)).change;
            && written.Some?
            && TypedChange(schema, written.value)
            && Effective(schema, base, written) == Some(matched + KnownColumns(schema, UpdateValues(schema, matched, patch)))
  {
    var matched := Effective(schema, base, slot.change).value;
    var values := UpdateValues(schema, matched, patch);
    EffectiveRowIsTyped(schema, base, slot.change);
    var ledger := Reserved(schema, slot.ledger);
    var written := WriteRow(schema, base, ledger, slot.change, values, Update).value;
    if schema.revision.Some? {
      WrittenField(schema, base, ledger, slot.change, values, Update, schema.revision.value);
    }
    forall c | c in schema.columns
      ensures EffectiveCell(base, written.fields, c) == (matched + KnownColumns(schema, values))[c]
    {
      UpdatedCell(schema, base, ledger, slot.change, values, matched, c);
    }
    EffectiveFromCells(schema, base, written, matched + KnownColumns(schema, values));
  }

  /** A delete hides the row and records every cell it hid. */
  lemma DeleteRowEffect(schema: Schema, base: Option<Row>, slot: Slot)
    requires TypedState(schema, base, slot.change) && Effective(schema, base, slot.change).Some?
    ensures var written := Written(schema, base, slot, DeleteOp).change;
            && written.Some?
            && TypedChange(schema, written.value)
            && written.value.fields.Keys == schema.columns
            && Effective(schema, base, written) == None
  {
    var matched := Effective(schema, base, slot.change).value;
    EffectiveRowIsTyped(schema, base, slot.change);
    assert CollectedColumns(schema, matched, Delete) == schema.columns;
    if schema.revision.Some? {
      WrittenField(schema, base, Reserved(schema, slot.ledger), slot.change, matched, Delete, schema.revision.value);
    }
  }

  /** An insert is refused exactly when the row is effectively present. */
  lemma InsertRefusedIffPresent(schema: Schema, base: Option<Row>, ledger: Option<int>, existing: Option<Change>, values: Row)
    ensures WriteRow(schema, base, ledger, existing, values, Insert).None? <==> Effective(schema, base, existing).Some?
  {}

  /** What an insert proposes, before it meets an existing change. */
  lemma InsertProposals(schema: Schema, base: Option<Row>, ledger: Option<int>, row: Row)
    requires ValidSchema(schema) && ValidInsert(schema, row)
    ensures var excluded := NewChange(schema, base, ledger, row, Insert);
            var shown := InsertedRow(schema, row, PlannedRevision(schema, base, ledger));
            && shown.Keys == schema.columns
            && excluded.fields.Keys == schema.columns
            && forall c :: c in excluded.fields ==> excluded.fields[c].proposed == shown[c]
  {
    hide PlannedRevision, AnchorOf;
  }

  lemma InsertFields(schema: Schema, base: Option<Row>, ledger: Option<int>, existing: Option<Change>, row: Row)
    requires TypedState(schema, base, existing) && Effective(schema, base, existing).None?
    requires ValidInsert(schema, row)
    ensures var written := WriteRow(schema, base, ledger, existing, row, Insert);
            && written.Some?
            && written.value.operation == Insert
            && written.value.fields.Keys == schema.columns
            && forall c :: c in written.value.fields ==>
                 written.value.fields[c].proposed == InsertedRow(schema, row, PlannedRevision(schema, base, ledger))[c]
  {
    hide ProposedFields, InsertedRow, PlannedRevision, ValidInsert, ValidRow;
    InsertProposals(schema, base, ledger, row);
    var written := WriteRow(schema, base, ledger, existing, row, Insert).value;
    forall c | c in schema.columns
      ensures c in written.fields && written.fields[c].proposed == InsertedRow(schema, row, PlannedRevision(schema, base, ledger))[c]
    {
      WrittenField(schema, base, ledger, existing, row, Insert, c);
    }
  }

  /** An accepted insert makes exactly the supplied row visible, at the planned revision. */
  lemma InsertRowEffect(schema: Schema, base: Option<Row>, slot: Slot, row: Row)
    requires TypedState(schema, base, slot.change) && Effective(schema, base, slot.change).None?
    requires ValidInsert(schema, row)
    ensures var written := Written(schema, base, slot, InsertOp(row)).change;
            && written.Some?
            && TypedChange(schema, written.value)
            && Effective(schema, base, written) == Some(InsertedRow(schema, row, PlannedRevision(schema, base, Reserved(schema, slot.ledger))))
  {
    hide InsertedRow, PlannedRevision, ValidInsert, ValidRow, WriteRow;
    var ledger := Reserved(schema, slot.ledger);
    InsertFields(schema, base, ledger, slot.change, row);
    InsertProposals(schema, base, ledger, row);
    EffectiveFromCells(schema, base, WriteRow(schema, base, ledger, slot.change, row, Insert).value,
                       InsertedRow(schema, row, PlannedRevision(schema, base, ledger)));
  }

  /** The three at once: a landed write keeps the change typed and shows its outcome. */
  lemma WriteShows(schema: Schema, base: Option<Row>, slot: Slot, op: DraftOp)
    requires TypedState(schema, base, slot.change) && ValidOp(schema, op) && Lands(schema, base, slot.change, op)
    ensures var written := Written(schema, base, slot, op).change;
            && written.Some?
            && TypedChange(schema, written.value)
            && Effective(schema, base, written) == Outcome(schema, base, slot.ledger, Effective(schema, base, slot.change), op)
  {
    hide TypedChange, WriteRow, Effective;
    match op
    case InsertOp(row) => InsertRowEffect(schema, base, slot, row);
    case UpdateOp(patch) => UpdateRowEffect(schema, base, slot, patch);
    case DeleteOp => DeleteRowEffect(schema, base, slot);
  }

  // ---------------------------------------------------------------------------------------
  // Change rows anchored to the canonical row they were written over
  // ---------------------------------------------------------------------------------------

  /** A change made over `base`: anchors are its cells, an update is of a present row, an insert or delete names every column. */
  ghost predicate AnchoredChange(schema: Schema, base: Option<Row>, change: Change) {
    && change.baseExists == base.Some?
    && change.fields.Keys <= schema.columns
    && (forall c :: c in change.fields ==> change.fields[c].original == AnchorOf(base, c))
    && (change.operation == Update ==> base.Some?)
    && (change.operation != Update ==> change.fields.Keys == schema.columns)
    && SoundRevision(schema, base, change)
  }

  /** The revision anchor is the base's, and every proposed revision is past it. */
  ghost predicate SoundRevision(schema: Schema, base: Option<Row>, change: Change) {
    schema.revision.Some? ==>
      var r := schema.revision.value;
      && change.baseRevision.Some?
      && (base.Some? ==> change.baseRevision.value == RevisionOf(schema, base.value))
      && (change.operation != Delete ==> r in change.fields)
      && (r in change.fields ==> change.fields[r].proposed.Num?)
      && (r in change.fields && (base.None? || change.operation != Delete) ==>
            change.fields[r].proposed.n > change.baseRevision.value)
      && (r in change.fields ==> change.fields[r].proposed.n >= change.baseRevision.value)
  }

  /** The row's ledger entry is the one the draft first saw, if it saw no canonical row. */
  ghost predicate LedgerCovers(schema: Schema, base: Option<Row>, ledger: Option<int>, existing: Option<Change>) {
    schema.revision.Some? ==>
      && ledger.Some?
      && (base.None? && existing.Some? ==> existing.value.baseRevision == ledger)
  }

  /** What the row lemmas assume of one locked row: a well-typed base and an anchored change over it. */
  ghost predicate RowState(schema: Schema, base: Option<Row>, ledger: Option<int>, existing: Option<Change>) {
    && ValidSchema(schema)
    && (base.Some? ==> ValidRow(schema, base.value))
    && (existing.Some? ==> AnchoredChange(schema, base, existing.value))
    && LedgerCovers(schema, base, ledger, existing)
  }

  lemma EffectiveRowIsValid(schema: Schema, base: Option<Row>, ledger: Option<int>, existing: Option<Change>)
    requires RowState(schema, base, ledger, existing)
    ensures TypedState(schema, base, existing)
    ensures var row := Effective(schema, base, existing);
            row.Some? ==> ValidRow(schema, row.value)
    ensures var row := Effective(schema, base, existing);
            row.Some? && base.Some? ==> RevisionOf(schema, row.value) >= RevisionOf(schema, base.value)
    ensures var row := Effective(schema, base, existing);
            row.Some? && base.None? && schema.revision.Some? ==> RevisionOf(schema, row.value) > existing.value.baseRevision.value
  {}

  /** Every write's originals are the base's cells. */
  lemma WriteIsAnchored(schema: Schema, base: Option<Row>, ledger: Option<int>, existing: Option<Change>, values: Row, intent: Operation)
    requires RowState(schema, base, ledger, existing)
    requires WriteRow(schema, base, ledger, existing, values, intent).Some?
    ensures var written := WriteRow(schema, base, ledger, existing, values, intent).value;
            && written.baseExists == base.Some?
            && written.fields.Keys <= schema.columns
            && forall c :: c in written.fields ==> written.fields[c].original == AnchorOf(base, c)
  {
    var written := WriteRow(schema, base, ledger, existing, values, intent).value;
    forall c | c in written.fields
      ensures c in schema.columns && written.fields[c].original == AnchorOf(base, c)
    {
      WrittenField(schema, base, ledger, existing, values, intent, c);
    }
  }

  lemma UpdateRevisionIsSound(schema: Schema, base: Option<Row>, ledger: Option<int>, existing: Option<Change>, patch: Row, matched: Row)
    requires RowState(schema, base, ledger, existing)
    requires Effective(schema, base, existing) == Some(matched)
    requires ValidPatch(schema, patch)
    ensures var written := WriteRow(schema, base, ledger, existing, UpdateValues(schema, matched, patch), Update);
            written.Some? && SoundRevision(schema, base, written.value)
  {
    if schema.revision.Some? {
      EffectiveRowIsValid(schema, base, ledger, existing);
      WrittenField(schema, base, ledger, existing, UpdateValues(schema, matched, patch), Update, schema.revision.value);
    }
  }

  lemma UpdateIsAnchored(schema: Schema, base: Option<Row>, ledger: Option<int>, existing: Option<Change>, patch: Row, matched: Row)
    requires RowState(schema, base, ledger, existing)
    requires Effective(schema, base, existing) == Some(matched)
    requires ValidPatch(schema, patch)
    ensures var written := WriteRow(schema, base, ledger, existing, UpdateValues(schema, matched, patch), Update);
            written.Some? && AnchoredChange(schema, base, written.value)
  {
    var values := UpdateValues(schema, matched, patch);
    var written := WriteRow(schema, base, ledger, existing, values, Update).value;
    WriteIsAnchored(schema, base, ledger, existing, values, Update);
    if written.operation == Insert {
      forall c | c in schema.columns
        ensures c in written.fields
      {
        WrittenField(schema, base, ledger, existing, values, Update, c);
      }
    }
    UpdateRevisionIsSound(schema, base, ledger, existing, patch, matched);
  }

  lemma InsertIsAnchored(schema: Schema, base: Option<Row>, ledger: Option<int>, existing: Option<Change>, row: Row)
    requires RowState(schema, base, ledger, existing) && Effective(schema, base, existing).None?
    requires ValidInsert(schema, row)
    ensures var written := WriteRow(schema, base, ledger, existing, row, Insert);
            written.Some? && AnchoredChange(schema, base, written.value)
  {
    EffectiveRowIsValid(schema, base, ledger, existing);
    InsertFields(schema, base, ledger, existing, row);
    WriteIsAnchored(schema, base, ledger, existing, row, Insert);
  }

  lemma DeleteIsAnchored(schema: Schema, base: Option<Row>, ledger: Option<int>, existing: Option<Change>, matched: Row)
    requires RowState(schema, base, ledger, existing) && Effective(schema, base, existing) == Some(matched)
    ensures var written := WriteRow(schema, base, ledger, existing, matched, Delete);
            written.Some? && AnchoredChange(schema, base, written.value)
  {
    EffectiveRowIsValid(schema, base, ledger, existing);
    assert CollectedColumns(schema, matched, Delete) == schema.columns;
    WriteIsAnchored(schema, base, ledger, existing, matched, Delete);
    if schema.revision.Some? {
      WrittenField(schema, base, ledger, existing, matched, Delete, schema.revision.value);
    }
  }

  /** A write over the row its change is anchored to leaves it anchored. */
  lemma WriteStaysAnchored(schema: Schema, base: Option<Row>, slot: Slot, op: DraftOp)
    requires RowState(schema, base, Reserved(schema, slot.ledger), slot.change)
    requires ValidOp(schema, op) && Lands(schema, base, slot.change, op)
    ensures var written := Written(schema, base, slot, op).change;
            written.Some? && AnchoredChange(schema, base, written.value)
  {
    hide AnchoredChange, RowState, WriteRow, Effective;
    var ledger := Reserved(schema, slot.ledger);
    match op
    case InsertOp(row) => InsertIsAnchored(schema, base, ledger, slot.change, row);
    case UpdateOp(patch) => UpdateIsAnchored(schema, base, ledger, slot.change, patch, Effective(schema, base, slot.change).value);
    case DeleteOp => DeleteIsAnchored(schema, base, ledger, slot.change, Effective(schema, base, slot.change).value);
  }

  /** Deleting a canonical row and inserting its key again is one change, an insert over a present row: publication replaces the row. */
  lemma DeleteThenInsertReplaces(schema: Schema, base: Row, ledger: Option<int>, row: Row)
    requires ValidRow(schema, base) && ValidInsert(schema, row)
    ensures var deleted := Written(schema, Some(base), Slot(ledger, None), DeleteOp);
            var replaced := Written(schema, Some(base), deleted, InsertOp(row)).change;
            && replaced.Some?
            && replaced.value.operation == Insert && replaced.value.baseExists
            && AnchoredChange(schema, Some(base), replaced.value)
  {
    hide WriteRow, AnchoredChange;
    var slot := Slot(ledger, None);
    var deleted := Written(schema, Some(base), slot, DeleteOp);
    DeleteRowEffect(schema, Some(base), slot);
    WriteStaysAnchored(schema, Some(base), slot, DeleteOp);
    InsertFields(schema, Some(base), deleted.ledger, deleted.change, row);
    WriteStaysAnchored(schema, Some(base), deleted, InsertOp(row));
    AnchoredPresence(schema, Some(base), Written(schema, Some(base), deleted, InsertOp(row)).change.value);
  }

  lemma AnchoredPresence(schema: Schema, base: Option<Row>, change: Change)
    requires AnchoredChange(schema, base, change)
    ensures change.baseExists == base.Some?
  {}

  // ---------------------------------------------------------------------------------------
  // Changes that cannot be published
  // ---------------------------------------------------------------------------------------

  /** Nothing but the planned revision is proposed. */
  predicate RevisionOnly(schema: Schema, change: Change) {
    forall c :: c in change.fields ==> Some(c) == schema.revision
  }

  /**
   * A revisioned row whose change proposes no column but the revision: the update statement is
   * empty and writes nothing, so unless an insert already lands on the reviewed revision,
   * publication reports drift.
   */
  predicate Unpublishable(schema: Schema, change: Change) {
    && schema.revision.Some?
    && RevisionOnly(schema, change)
    && (change.operation == Update
        || (change.operation == Insert && schema.revision.value in change.fields && change.baseRevision.Some?
            && change.fields[schema.revision.value].proposed != Num(change.baseRevision.value + 1)))
  }

  /** An update that names a column of its table, as a typed handler's does. */
  ghost predicate NamesColumn(schema: Schema, op: DraftOp) {
    op.UpdateOp? ==> KnownColumns(schema, op.patch) != map[]
  }

  /** The first update of a revisioned row is unpublishable exactly when its patch names no column of the table. */
  lemma FirstUpdateIsUnpublishableIff(schema: Schema, base: Row, ledger: Option<int>, patch: Row)
    requires ValidRow(schema, base) && schema.revision.Some? && ValidPatch(schema, patch)
    ensures var written := Written(schema, Some(base), Slot(ledger, None), UpdateOp(patch)).change;
            && written.Some?
            && AnchoredChange(schema, Some(base), written.value)
            && (Unpublishable(schema, written.value) <==> KnownColumns(schema, patch) == map[])
  {
    var slot := Slot(ledger, None);
    WriteStaysAnchored(schema, Some(base), slot, UpdateOp(patch));
    var values := UpdateValues(schema, base, patch);
    var written := Written(schema, Some(base), slot, UpdateOp(patch)).change.value;
    assert written.fields.Keys == CollectedColumns(schema, values, Update);
    if KnownColumns(schema, patch) != map[] {
      var c :| c in KnownColumns(schema, patch);
      assert c in written.fields;
    } else {
      forall c | c in written.fields
        ensures Some(c) == schema.revision
      {
        assert c in patch ==> c in KnownColumns(schema, patch);
      }
    }
  }

  /** Statements that name columns never make a change over an unmoved row unpublishable. */
  lemma WriteStaysPublishable(schema: Schema, base: Option<Row>, slot: Slot, op: DraftOp)
    requires RowState(schema, base, Reserved(schema, slot.ledger), slot.change)
    requires ValidOp(schema, op) && NamesColumn(schema, op) && Lands(schema, base, slot.change, op)
    requires slot.change.Some? ==> !Unpublishable(schema, slot.change.value)
    ensures var written := Written(schema, base, slot, op).change;
            written.Some? ==> !Unpublishable(schema, written.value)
  {
    hide AnchoredChange;
    var ledger := Reserved(schema, slot.ledger);
    var written := Written(schema, base, slot, op).change.value;
    match op
    case UpdateOp(patch) =>
      var matched := Effective(schema, base, slot.change).value;
      var c :| c in KnownColumns(schema, patch);
      WrittenField(schema, base, ledger, slot.change, UpdateValues(schema, matched, patch), Update, c);
      assert c in written.fields && Some(c) != schema.revision;
    case InsertOp(row) =>
      if schema.revision.Some? {
        InsertPlansNext(schema, base, ledger, slot.change, row);
      }
    case DeleteOp =>
  }

  /** An insert over an unmoved row plans the revision right after the anchored one. */
  lemma InsertPlansNext(schema: Schema, base: Option<Row>, ledger: Option<int>, existing: Option<Change>, row: Row)
    requires RowState(schema, base, ledger, existing) && Effective(schema, base, existing).None?
    requires schema.revision.Some? && ValidInsert(schema, row)
    ensures var written := WriteRow(schema, base, ledger, existing, row, Insert);
            && written.Some? && written.value.baseRevision.Some? && schema.revision.value in written.value.fields
            && written.value.fields[schema.revision.value].proposed == Num(written.value.baseRevision.value + 1)
  {
    hide ValidInsert, ValidRow;
    EffectiveRowIsValid(schema, base, ledger, existing);
    InsertFields(schema, base, ledger, existing, row);
  }
}
