/**
 * A draft behaves like a plain copy of the tables: any sequence of draft statements over fixed
 * canonical rows reads back as the same statements run on the copy, the revision column aside.
 */
module DraftSimulation {
  import opened Common
  import opened DraftOverlay
  import opened DraftWrites
  import opened PublishOrder
  import opened CanonicalWrites
  import opened DraftTables

  function Strip(schema: Schema, row: Row): Row {
    row - RevisionColumns(schema)
  }

  function StripAt(schema: Schema, row: Option<Row>): Option<Row> {
    if row.Some? then Some(Strip(schema, row.value)) else None
  }

  /** What a draft reads, revisions aside, as a table of its own. */
  function PlainCopy(schemas: string -> Schema, rows: Rows, changes: ChangeRows): Rows {
    map t | t in rows.Keys + changes.Keys && EffectiveAt(schemas, rows, changes, t).Some?
      :: Strip(schemas(t.table), EffectiveAt(schemas, rows, changes, t).value)
  }

  lemma PlainCopyAt(schemas: string -> Schema, rows: Rows, changes: ChangeRows, t: Target)
    ensures Lookup(PlainCopy(schemas, rows, changes), t) == StripAt(schemas(t.table), EffectiveAt(schemas, rows, changes, t))
  {}

  /** Predicates over caller-visible columns. */
  ghost predicate IgnoresRevision(schema: Schema, where: Where) {
    forall k, row :: where(k, row) == where(k, Strip(schema, row))
  }

  ghost predicate Portable(schemas: string -> Schema, s: DraftStatement) {
    && WellTyped(schemas, s)
    && (!s.InsertRows? ==> IgnoresRevision(schemas(s.table), s.where))
  }

  // ---------------------------------------------------------------------------------------
  // The plain copy
  // ---------------------------------------------------------------------------------------

  /** The statement runs unless it inserts a key that is present or repeated. */
  ghost predicate PlainAccepts(plain: Rows, s: DraftStatement) {
    s.InsertRows? ==> CanInsert(plain, s.table, s.items)
  }

  ghost function PlainStep(schemas: string -> Schema, plain: Rows, s: DraftStatement): Rows {
    match s
    case InsertRows(table, items, _) =>
      if CanInsert(plain, table, items)
      then plain + Keyed(table, items, seq(|items|, i requires 0 <= i < |items| => KnownColumns(schemas(table), items[i].values)))
      else plain
    case UpdateRows(table, where, patch) =>
      map t | t in plain :: if Hit(plain, table, where, t) then plain[t] + KnownColumns(schemas(table), patch) else plain[t]
    case DeleteRows(table, where) => map t | t in plain && !Hit(plain, table, where, t) :: plain[t]
  }

  ghost function PlainRun(schemas: string -> Schema, plain: Rows, statements: seq<DraftStatement>): Rows {
    if statements == [] then plain
    else PlainStep(schemas, PlainRun(schemas, plain, statements[..|statements| - 1]), statements[|statements| - 1])
  }

  lemma PlainRunNext(schemas: string -> Schema, plain: Rows, statements: seq<DraftStatement>, i: nat)
    requires i < |statements|
    ensures PlainRun(schemas, plain, statements[..i + 1]) == PlainStep(schemas, PlainRun(schemas, plain, statements[..i]), statements[i])
  {
    assert statements[..i + 1][..i] == statements[..i];
  }

  // ---------------------------------------------------------------------------------------
  // Row by row
  // ---------------------------------------------------------------------------------------

  /** `plain` is what the draft reads, revisions aside. */
  ghost predicate ReadsAs(schemas: string -> Schema, rows: Rows, changes: ChangeRows, plain: Rows) {
    forall t: Target :: StripAt(schemas(t.table), EffectiveAt(schemas, rows, changes, t)) == Lookup(plain, t)
  }

  lemma OutcomeStrips(schema: Schema, base: Option<Row>, ledger: Option<int>, matched: Option<Row>, op: DraftOp)
    requires ValidOp(schema, op) && (matched.Some? ==> matched.value.Keys == schema.columns)
    ensures op.InsertOp? ==> StripAt(schema, Outcome(schema, base, ledger, matched, op)) == Some(KnownColumns(schema, op.row))
    ensures op.UpdateOp? && matched.Some? ==>
              StripAt(schema, Outcome(schema, base, ledger, matched, op)) == Some(Strip(schema, matched.value) + KnownColumns(schema, op.patch))
  {
    match op
    case InsertOp(row) =>
      var revision := PlannedRevision(schema, base, Reserved(schema, ledger));
      assert Strip(schema, InsertedRow(schema, row, revision)) == KnownColumns(schema, row);
    case UpdateOp(patch) =>
      if matched.Some? {
        var values := UpdateValues(schema, matched.value, patch);
        assert Strip(schema, matched.value + KnownColumns(schema, values)) == Strip(schema, matched.value) + KnownColumns(schema, patch);
      }
    case DeleteOp =>
  }

  lemma SameVerdict(schemas: string -> Schema, rows: Rows, changes: ChangeRows, plain: Rows, s: DraftStatement)
    requires ReadsAs(schemas, rows, changes, plain)
    ensures (s.InsertRows? ==> Accepts(schemas, rows, changes, s.table, s.items)) <==> PlainAccepts(plain, s)
  {
    hide EffectiveAt;
    if s.InsertRows? {
      forall i | 0 <= i < |s.items|
        ensures EffectiveAt(schemas, rows, changes, Target(s.table, s.items[i].key)).None? <==> Target(s.table, s.items[i].key) !in plain
      {
        var t := Target(s.table, s.items[i].key);
        assert Lookup(plain, t) == StripAt(schemas(t.table), EffectiveAt(schemas, rows, changes, t));
      }
    }
  }

  /** The plain step at one target, by what the draft statement writes there. */
  lemma PlainStepAt(schemas: string -> Schema, rows: Rows, changes: ChangeRows, plain: Rows, s: DraftStatement, t: Target)
    requires ReadsAs(schemas, rows, changes, plain) && Portable(schemas, s)
    ensures var op := DraftOpAt(schemas, rows, changes, s, t);
            Lookup(PlainStep(schemas, plain, s), t)
            == if op.None? then Lookup(plain, t)
               else match op.value
                    case InsertOp(row) => Some(KnownColumns(schemas(t.table), row))
                    case UpdateOp(patch) => if t in plain then Some(plain[t] + KnownColumns(schemas(t.table), patch)) else None
                    case DeleteOp => None
  {
    hide EffectiveAt, KnownColumns, ValidInsert;
    SameVerdict(schemas, rows, changes, plain, s);
    assert StripAt(schemas(t.table), EffectiveAt(schemas, rows, changes, t)) == Lookup(plain, t);
    match s
    case InsertRows(table, items, _) =>
      ValuesForItem(items, t.key);
      if CanInsert(plain, table, items) {
        KeyedRow(table, items, seq(|items|, i requires 0 <= i < |items| => KnownColumns(schemas(table), items[i].values)));
      }
    case UpdateRows(table, where, patch) =>
      if patch == map[] && t in plain {
        NothingKnown(schemas(table), patch);
        assert plain[t] + map[] == plain[t];
      }
    case DeleteRows(table, where) =>
  }

  lemma NothingKnown(schema: Schema, patch: Row)
    requires patch == map[]
    ensures KnownColumns(schema, patch) == map[]
  {}

  /** One target after a statement reads as the plain copy does. */
  lemma StepReadsAs(schemas: string -> Schema, rows: Rows, changes: ChangeRows, changes': ChangeRows, ledger: Ledger, plain: Rows,
                    s: DraftStatement, t: Target)
    requires ReadsAs(schemas, rows, changes, plain) && Portable(schemas, s)
    requires TypedState(schemas(t.table), Lookup(rows, t), Lookup(changes, t))
    requires Lookup(changes', t) == SlotAfter(schemas(t.table), Lookup(rows, t), Slot(Lookup(ledger, t), Lookup(changes, t)),
                                              DraftOpAt(schemas, rows, changes, s, t)).change
    ensures StripAt(schemas(t.table), EffectiveAt(schemas, rows, changes', t)) == Lookup(PlainStep(schemas, plain, s), t)
  {
    hide Effective, PlainStep, DraftOpAt, Outcome, Written, WellTyped;
    var schema, base, slot := schemas(t.table), Lookup(rows, t), Slot(Lookup(ledger, t), Lookup(changes, t));
    var op := DraftOpAt(schemas, rows, changes, s, t);
    PlainStepAt(schemas, rows, changes, plain, s, t);
    StatementLands(schemas, rows, changes, s, t);
    assert StripAt(schema, EffectiveAt(schemas, rows, changes, t)) == Lookup(plain, t);
    if op.Some? {
      EffectiveRowIsTyped(schema, base, slot.change);
      WriteShows(schema, base, slot, op.value);
      OutcomeStrips(schema, base, slot.ledger, Effective(schema, base, slot.change), op.value);
      DeleteShowsNothing(schema, base, slot.ledger, Effective(schema, base, slot.change), op.value);
    }
  }

  lemma DeleteShowsNothing(schema: Schema, base: Option<Row>, ledger: Option<int>, matched: Option<Row>, op: DraftOp)
    ensures op.DeleteOp? || (op.UpdateOp? && matched.None?) ==> Outcome(schema, base, ledger, matched, op).None?
  {}

  // ---------------------------------------------------------------------------------------
  // Runs
  // ---------------------------------------------------------------------------------------

  ghost predicate AllAnchorsKept(before: ChangeRows, after: ChangeRows) {
    forall t :: t in before ==> t in after && AnchorsKept(before[t], after[t])
  }

  lemma AnchorsKeptOnWrite(schema: Schema, base: Option<Row>, slot: Slot, op: Option<DraftOp>)
    ensures slot.change.Some? ==>
              var after := SlotAfter(schema, base, slot, op).change;
              after.Some? && AnchorsKept(slot.change.value, after.value)
  {
    hide Written;
    if op.Some? {
      WrittenKeepsAnchors(schema, base, slot, op.value);
    }
  }

  lemma AnchorsKeptTransitive(a: ChangeRows, b: ChangeRows, c: ChangeRows)
    requires AllAnchorsKept(a, b) && AllAnchorsKept(b, c)
    ensures AllAnchorsKept(a, c)
  {
    forall t | t in a
      ensures t in c && AnchorsKept(a[t], c[t])
    {
      assert t in b;
    }
  }

  /** One statement on the draft reads as the statement on its plain copy. */
  method Apply(draft: Draft, s: DraftStatement, ghost plain: Rows) returns (accepted: bool)
    requires draft.Valid() && Portable(draft.db.schemas, s) && ReadsAs(draft.db.schemas, draft.db.rows, draft.changes, plain)
    modifies draft, draft.db
    ensures draft.Valid() && draft.db.rows == old(draft.db.rows)
    ensures AllAnchorsKept(old(draft.changes), draft.changes)
    ensures accepted <==> PlainAccepts(plain, s)
    ensures ReadsAs(draft.db.schemas, draft.db.rows, draft.changes, PlainStep(draft.db.schemas, plain, s))
  {
    hide Effective, EffectiveAt, DraftOpAt, SlotAfter, PlainStep, PlainAccepts, Accepts, Draft.Valid, WellTyped, IgnoresRevision,
      AnchorsKept, TypedState;
    SameVerdict(draft.db.schemas, draft.db.rows, draft.changes, plain, s);
    forall t: Target
      ensures TypedState(draft.db.schemas(t.table), Lookup(draft.db.rows, t), Lookup(draft.changes, t))
    {
      draft.TypedAt(t);
    }
    accepted := draft.Execute(s);
    forall t: Target
      ensures StripAt(draft.db.schemas(t.table), EffectiveAt(draft.db.schemas, draft.db.rows, draft.changes, t))
           == Lookup(PlainStep(draft.db.schemas, plain, s), t)
      ensures t in old(draft.changes) ==> t in draft.changes && AnchorsKept(old(draft.changes)[t], draft.changes[t])
    {
      assert draft.SlotAt(t) == Slot(Lookup(draft.db.ledger, t), Lookup(draft.changes, t));
      StepReadsAs(draft.db.schemas, draft.db.rows, old(draft.changes), draft.changes, old(draft.db.ledger), plain, s, t);
      AnchorsKeptOnWrite(draft.db.schemas(t.table), Lookup(draft.db.rows, t), old(draft.SlotAt(t)),
                         DraftOpAt(draft.db.schemas, draft.db.rows, old(draft.changes), s, t));
    }
  }

  lemma ReadsAsCopy(schemas: string -> Schema, rows: Rows, changes: ChangeRows, plain: Rows)
    ensures ReadsAs(schemas, rows, changes, plain) <==> PlainCopy(schemas, rows, changes) == plain
  {
    hide EffectiveAt;
    var copy := PlainCopy(schemas, rows, changes);
    forall t
      ensures Lookup(copy, t) == StripAt(schemas(t.table), EffectiveAt(schemas, rows, changes, t))
    {
      PlainCopyAt(schemas, rows, changes, t);
    }
    if ReadsAs(schemas, rows, changes, plain) {
      forall t
        ensures (t in copy <==> t in plain) && (t in copy ==> copy[t] == plain[t])
      {
        assert StripAt(schemas(t.table), EffectiveAt(schemas, rows, changes, t)) == Lookup(plain, t);
        assert Lookup(copy, t) == Lookup(plain, t);
      }
      assert copy == plain;
    }
  }

  /** Any sequence of statements: the coalesced read is the plain copy, and anchors never move. */
  method Run(draft: Draft, statements: seq<DraftStatement>) returns (accepted: seq<bool>)
    requires draft.Valid() && forall i :: 0 <= i < |statements| ==> Portable(draft.db.schemas, statements[i])
    modifies draft, draft.db
    ensures draft.Valid() && draft.db.rows == old(draft.db.rows)
    ensures AllAnchorsKept(old(draft.changes), draft.changes)
    ensures PlainCopy(draft.db.schemas, draft.db.rows, draft.changes)
         == PlainRun(draft.db.schemas, PlainCopy(draft.db.schemas, old(draft.db.rows), old(draft.changes)), statements)
    ensures var plain := PlainCopy(draft.db.schemas, old(draft.db.rows), old(draft.changes));
            |accepted| == |statements| && forall i :: 0 <= i < |statements| ==>
              (accepted[i] <==> PlainAccepts(PlainRun(draft.db.schemas, plain, statements[..i]), statements[i]))
  {
    hide Draft.Valid, EffectiveAt, PlainStep, PlainAccepts, ReadsAs, PlainCopy, Portable, AnchorsKept;
    ghost var plain := PlainCopy(draft.db.schemas, draft.db.rows, draft.changes);
    assert PlainRun(draft.db.schemas, plain, statements[..0]) == plain;
    ReadsAsCopy(draft.db.schemas, draft.db.rows, draft.changes, plain);
    AnchorsKeptAtFirst(draft.changes);
    accepted := [];
    for i := 0 to |statements|
      invariant draft.Valid() && draft.db.rows == old(draft.db.rows)
      invariant AllAnchorsKept(old(draft.changes), draft.changes)
      invariant ReadsAs(draft.db.schemas, draft.db.rows, draft.changes, PlainRun(draft.db.schemas, plain, statements[..i]))
      invariant |accepted| == i && forall j :: 0 <= j < i ==>
                  (accepted[j] <==> PlainAccepts(PlainRun(draft.db.schemas, plain, statements[..j]), statements[j]))
    {
      hide PlainRun, AllAnchorsKept;
      PlainRunNext(draft.db.schemas, plain, statements, i);
      ghost var changes' := draft.changes;
      var verdict := Apply(draft, statements[i], PlainRun(draft.db.schemas, plain, statements[..i]));
      accepted := accepted + [verdict];
      AnchorsKeptTransitive(old(draft.changes), changes', draft.changes);
    }
    assert statements[..|statements|] == statements;
    ReadsAsCopy(draft.db.schemas, draft.db.rows, draft.changes, PlainRun(draft.db.schemas, plain, statements));
  }

  lemma AnchorsKeptAtFirst(changes: ChangeRows)
    ensures AllAnchorsKept(changes, changes)
  {}
}
