/**
 * Applying reviewed changes (packages/server/src/draft-publication.ts): when the canonical rows
 * still match their anchors, publication leaves exactly the table the draft view showed, each
 * revisioned row at exactly the reviewed revision.
 */
module Publication {
  import opened Common
  import opened DraftOverlay
  import opened DraftWrites
  import opened PublishOrder
  import opened PublishSafety
  import opened CanonicalWrites
  import StepGraph
  import R = RowRevisions

  datatype PublishError = ForeignKeyCycle | Drift(target: Target)

  // ---------------------------------------------------------------------------------------
  // Resolving the stored changes
  // ---------------------------------------------------------------------------------------

  function WholeRow(schema: Schema, t: Target, row: Row): Row {
    row[schema.pk := t.key]
  }

  function Whole(schemas: string -> Schema, rows: Rows): Database {
    map t | t in rows :: WholeRow(schemas(t.table), t, rows[t])
  }

  /** A create followed by a delete is a harmless tombstone. */
  predicate Reviewable(change: Change) {
    change.baseExists || change.operation != Delete
  }

  /** The proposed values a publication writes; the revision is the database's to move. */
  function ReviewedValues(schema: Schema, change: Change): Row {
    map c | c in change.fields && c in schema.columns && Some(c) != schema.revision :: change.fields[c].proposed
  }

  /** The row as the anchors remember it: untouched columns from the final row, touched ones from their originals. */
  function OriginalRow(schema: Schema, t: Target, change: Change, final: Option<Row>): Option<Row> {
    if !change.baseExists then None
    else
      var start := if final.Some? then final.value else map[];
      var originals := map c | c in change.fields && c in schema.columns && change.fields[c].original.Present? :: change.fields[c].original.value;
      Some(WholeRow(schema, t, start) + originals)
  }

  /** `rows` is the canonical state the draft view is read over. */
  function Resolve(schema: Schema, rows: Rows, t: Target, change: Change): Resolved {
    var final := Effective(schema, Lookup(rows, t), Some(change));
    Resolved(t, change.operation, change.baseExists,
             OriginalRow(schema, t, change, final),
             if final.Some? then Some(WholeRow(schema, t, final.value)) else None)
  }

  function ResolveAll(schemas: string -> Schema, rows: Rows, changes: map<Target, Change>, inspected: seq<Target>): seq<Resolved>
    requires forall i :: 0 <= i < |inspected| ==> inspected[i] in changes
  {
    seq(|inspected|, i requires 0 <= i < |inspected| => Resolve(schemas(inspected[i].table), rows, inspected[i], changes[inspected[i]]))
  }

  /** The stored change still describes the canonical row and, when there is none, the durable ledger. */
  ghost predicate StillAnchored(schema: Schema, rows: Rows, ledger: Ledger, t: Target, change: Change) {
    && ValidSchema(schema)
    && AnchoredChange(schema, Lookup(rows, t), change)
    && (schema.revision.Some? && !change.baseExists ==> Lookup(ledger, t) == change.baseRevision)
  }

  /** The anchors reconstruct the canonical row, and the final row is complete. */
  lemma ResolvedRow(schema: Schema, rows: Rows, ledger: Ledger, t: Target, change: Change)
    requires StillAnchored(schema, rows, ledger, t, change) && Reviewable(change)
    requires t in rows ==> ValidRow(schema, rows[t])
    ensures var c := Resolve(schema, rows, t, change);
            && WellFormed(c)
            && c.original == (if t in rows then Some(WholeRow(schema, t, rows[t])) else None)
    ensures var final := Effective(schema, Lookup(rows, t), Some(change));
            final.Some? ==> ValidRow(schema, final.value)
  {
    if t in rows {
      var final := Effective(schema, Lookup(rows, t), Some(change));
      var original := OriginalRow(schema, t, change, final).value;
      forall c | c in schema.columns
        ensures c in original && original[c] == rows[t][c]
      {}
      assert original.Keys == schema.columns + {schema.pk};
      assert original == WholeRow(schema, t, rows[t]);
    }
  }

  /** The row a publication's first write leaves, before its revision is advanced. */
  lemma FinalFromValues(schema: Schema, rows: Rows, ledger: Ledger, t: Target, change: Change)
    requires StillAnchored(schema, rows, ledger, t, change) && change.operation != Delete
    requires t in rows ==> ValidRow(schema, rows[t])
    ensures var final := Effective(schema, Lookup(rows, t), Some(change)).value;
            var values := ReviewedValues(schema, change);
            && (change.operation == Update ==> final == rows[t] + values + RevisionPatch(schema, final))
            && (change.operation == Insert ==> final == StoredRow(schema, values, RevisionOf(schema, final)))
  {
    var final := Effective(schema, Lookup(rows, t), Some(change)).value;
    var values := ReviewedValues(schema, change);
    if change.operation == Update {
      var written := rows[t] + values + RevisionPatch(schema, final);
      assert written.Keys == schema.columns;
      forall c | c in schema.columns
        ensures final[c] == written[c]
      {}
    }
  }

  function RevisionPatch(schema: Schema, row: Row): Row {
    if schema.revision.Some? then map[schema.revision.value := Num(RevisionOf(schema, row))] else map[]
  }

  // ---------------------------------------------------------------------------------------
  // Tracked writes addressed to one primary key
  // ---------------------------------------------------------------------------------------

  predicate IsKey(key: Key, k: Key, row: Row) {
    k == key
  }

  lemma SameMap<V>(a: map<Target, V>, b: map<Target, V>)
    requires forall u :: Lookup(a, u) == Lookup(b, u)
    ensures a == b
  {
    forall u
      ensures (u in a <==> u in b) && (u in a ==> a[u] == b[u])
    {
      assert Lookup(a, u) == Lookup(b, u);
    }
  }

  method UpdateKey(db: TrackedDb, t: Target, values: Row)
    requires db.Valid() && TypedRowOp(db.schemas(t.table), UpdateRow(values))
    modifies db
    ensures db.Valid()
    ensures db.ledger == old(db.ledger)
    ensures db.rows == if t in old(db.rows) && values != map[]
                       then old(db.rows)[t := old(db.rows)[t] + UpdateValues(db.schemas(t.table), old(db.rows)[t], values)]
                       else old(db.rows)
    ensures db.tablesWritten == old(db.tablesWritten) + if values == map[] then {} else {t.table}
  {
    hide TrackedDb.Valid, UpdateValues;
    ghost var expected := if t in db.rows && values != map[]
                          then db.rows[t := db.rows[t] + UpdateValues(db.schemas(t.table), db.rows[t], values)]
                          else db.rows;
    db.Update(t.table, (k, r) => IsKey(t.key, k, r), values);
    forall u
      ensures Lookup(db.rows, u) == Lookup(expected, u) && Lookup(db.ledger, u) == Lookup(old(db.ledger), u)
    {
      assert db.At(u) == StateOf(db.rows, db.ledger, u);
    }
    SameMap(db.rows, expected);
    SameMap(db.ledger, old(db.ledger));
  }

  method InsertKey(db: TrackedDb, t: Target, values: Row) returns (ok: bool)
    requires db.Valid()
    modifies db
    ensures db.Valid()
    ensures ok <==> t !in old(db.rows)
    ensures !ok ==> db.rows == old(db.rows) && db.ledger == old(db.ledger)
    ensures ok ==> db.rows == old(db.rows)[t := StoredRow(db.schemas(t.table), values, NextToken(old(db.ledger), t))]
    ensures ok ==> db.ledger == if db.schemas(t.table).revision.Some? then old(db.ledger)[t := NextToken(old(db.ledger), t)] else old(db.ledger)
    ensures db.tablesWritten == old(db.tablesWritten) + if ok then {t.table} else {}
  {
    hide TrackedDb.Valid, StoredRow;
    ghost var token := NextToken(db.ledger, t);
    ghost var rows := if t in db.rows then db.rows else db.rows[t := StoredRow(db.schemas(t.table), values, token)];
    ghost var ledger := if t !in db.rows && db.schemas(t.table).revision.Some? then db.ledger[t := token] else db.ledger;
    var items := [Item(t.key, values)];
    assert items[0] == Item(t.key, values) && Target(t.table, items[0].key) == t;
    ok := db.Insert(t.table, items);
    forall u
      ensures Lookup(db.rows, u) == Lookup(rows, u) && Lookup(db.ledger, u) == Lookup(ledger, u)
    {
      assert db.At(u) == StateOf(db.rows, db.ledger, u);
      assert ValuesFor(items, u.key) == if u.key == t.key then Some(values) else None by {
        ValuesForItem(items, u.key);
      }
    }
    SameMap(db.rows, rows);
    SameMap(db.ledger, ledger);
  }

  method DeleteKey(db: TrackedDb, t: Target)
    requires db.Valid() && t in db.rows
    modifies db
    ensures db.Valid()
    ensures db.rows == old(db.rows) - {t}
    ensures db.schemas(t.table).revision.None? ==> db.ledger == old(db.ledger)
    ensures db.schemas(t.table).revision.Some? ==>
              db.ledger == old(db.ledger)[t := RevisionOf(db.schemas(t.table), old(db.rows)[t])]
    ensures db.tablesWritten == old(db.tablesWritten) + {t.table}
  {
    var schema := db.schemas(t.table);
    ghost var rows := db.rows - {t};
    ghost var ledger := if schema.revision.Some? then db.ledger[t := RevisionOf(schema, db.rows[t])] else db.ledger;
    assert schema.revision.Some? ==> R.Valid(db.IdentityAt(t));
    hide TrackedDb.Valid, RevisionOf;
    var where := (k, r) => IsKey(t.key, k, r);
    assert forall u {:trigger Hit(db.rows, t.table, where, u)} :: Hit(db.rows, t.table, where, u) <==> u == t;
    db.Delete(t.table, where);
    forall u
      ensures Lookup(db.rows, u) == Lookup(rows, u) && Lookup(db.ledger, u) == Lookup(ledger, u)
    {
      assert db.At(u) == StateOf(db.rows, db.ledger, u);
    }
    SameMap(db.rows, rows);
    SameMap(db.ledger, ledger);
  }

  // ---------------------------------------------------------------------------------------
  // Advancing to the reviewed revision
  // ---------------------------------------------------------------------------------------

  /**
   * Repeat the reviewed update until the row shows the reviewed revision. An empty patch is no
   * write, so a row that still has to climb cannot; a row already past its goal never comes back.
   */
  method AdvanceReviewedRevision(db: TrackedDb, t: Target, values: Row, desired: int) returns (ok: bool)
    requires db.Valid() && db.schemas(t.table).revision.Some? && TypedRowOp(db.schemas(t.table), UpdateRow(values))
    modifies db
    ensures db.Valid()
    ensures db.ledger == old(db.ledger)
    ensures ok <==> t in old(db.rows)
                    && var published := RevisionOf(db.schemas(t.table), old(db.rows)[t]);
                       published == desired || (published < desired && values != map[])
    ensures forall u :: u != t ==> Lookup(db.rows, u) == Lookup(old(db.rows), u)
    ensures ok ==> t in old(db.rows) && t in db.rows
    ensures ok ==> RevisionOf(db.schemas(t.table), db.rows[t]) == desired
    ensures ok ==> var before := old(db.rows)[t];
                   var patched := if RevisionOf(db.schemas(t.table), before) < desired then before + values else before;
                   db.rows[t] == patched[db.schemas(t.table).revision.value := Num(desired)]
    ensures ok ==> db.tablesWritten == old(db.tablesWritten)
                                       + if RevisionOf(db.schemas(t.table), old(db.rows)[t]) < desired then {t.table} else {}
  {
    hide TrackedDb.Valid;
    var schema := db.schemas(t.table);
    if t !in db.rows {
      return false;
    }
    assert ValidRow(schema, db.rows[t]) by { db.ValidIff(); assert Typed(schema, db.At(t)); }
    var published := RevisionOf(schema, db.rows[t]);
    ghost var before, start := db.rows[t], published;
    assert before[schema.revision.value := Num(start)] == before;
    while published < desired
      invariant db.Valid() && db.ledger == old(db.ledger)
      invariant db.tablesWritten == old(db.tablesWritten) + if published > start then {t.table} else {}
      invariant forall u :: u != t ==> Lookup(db.rows, u) == Lookup(old(db.rows), u)
      invariant t in db.rows && published == RevisionOf(schema, db.rows[t])
      invariant start <= published && (start <= desired ==> published <= desired)
      invariant published == start ==> db.rows[t] == before
      invariant published > start ==> values != map[]
      invariant db.rows[t] == (if published > start then before + values else before)[schema.revision.value := Num(published)]
      decreases desired - published
    {
      var previous := published;
      ghost var row := db.rows[t];
      UpdateKey(db, t, values);
      published := RevisionOf(schema, db.rows[t]);
      if published <= previous {
        return false;
      }
    }
    ok := published == desired;
  }

  // ---------------------------------------------------------------------------------------
  // One step
  // ---------------------------------------------------------------------------------------

  /** What publication leaves at a target. */
  function Published(schema: Schema, rows: Rows, t: Target, change: Change): Option<Row> {
    Effective(schema, Lookup(rows, t), Some(change))
  }

  /** Remove step: the row goes, its last token stays in the ledger. */
  method RemoveReviewedRow(db: TrackedDb, t: Target)
    requires db.Valid() && t in db.rows
    modifies db
    ensures db.Valid()
    ensures db.rows == old(db.rows) - {t}
    ensures forall u :: u != t ==> Lookup(db.ledger, u) == Lookup(old(db.ledger), u)
    ensures db.schemas(t.table).revision.Some? ==>
              Lookup(db.ledger, t) == Some(RevisionOf(db.schemas(t.table), old(db.rows)[t]))
    ensures db.schemas(t.table).revision.None? ==> Lookup(db.ledger, t) == Lookup(old(db.ledger), t)
    ensures db.tablesWritten == old(db.tablesWritten) + {t.table}
  {
    DeleteKey(db, t);
  }

  lemma StoredRowClimbs(schema: Schema, values: Row, token: int, desired: int)
    requires ValidSchema(schema) && schema.revision.Some?
    requires values.Keys <= schema.columns && schema.revision.value !in values
    ensures ValidRow(schema, StoredRow(schema, values, token))
    ensures RevisionOf(schema, StoredRow(schema, values, token)) == token
    ensures var row := StoredRow(schema, values, token);
            && (row + values)[schema.revision.value := Num(desired)] == StoredRow(schema, values, desired)
            && row[schema.revision.value := Num(desired)] == StoredRow(schema, values, desired)
  {
    var row := StoredRow(schema, values, token);
    assert (row + values).Keys == schema.columns;
  }

  /** Write step of an insert: the next token is at most the reviewed one, and the loop climbs the rest. */
  method InsertReviewedRow(db: TrackedDb, t: Target, change: Change, ghost base: Rows, ghost ledger: Ledger) returns (ok: bool)
    requires db.Valid() && StillAnchored(db.schemas(t.table), base, ledger, t, change) && change.operation == Insert
    requires t in base ==> ValidRow(db.schemas(t.table), base[t])
    requires t !in db.rows
    requires db.schemas(t.table).revision.Some? ==> Lookup(db.ledger, t) == change.baseRevision
    modifies db
    ensures ok <==> !Unpublishable(db.schemas(t.table), change)
    ensures db.Valid()
    ensures ok ==> db.rows == old(db.rows)[t := Published(db.schemas(t.table), base, t, change).value]
    ensures forall u :: u != t ==> Lookup(db.ledger, u) == Lookup(old(db.ledger), u)
    ensures Lookup(db.ledger, t) == if db.schemas(t.table).revision.Some? then Some(NextToken(old(db.ledger), t)) else Lookup(old(db.ledger), t)
    ensures ok ==> db.tablesWritten == old(db.tablesWritten) + {t.table}
  {
    hide AnchoredChange, Effective, StoredRow, RevisionOf, RevisionOnly, ReviewedValues, TrackedDb.Valid, UpdateValues;
    var schema := db.schemas(t.table);
    var values := ReviewedValues(schema, change);
    FinalFromValues(schema, base, ledger, t, change);
    ReviewedFacts(schema, base, ledger, t, change);
    NoValuesIsRevisionOnly(schema, base, ledger, t, change);
    ghost var final := Published(schema, base, t, change).value;
    ok := InsertKey(db, t, values);
    if schema.revision.None? {
      assert StoredRow(schema, values, NextToken(old(db.ledger), t)) == final by {
        TokenIsUnused(schema, values, NextToken(old(db.ledger), t), RevisionOf(schema, final));
      }
    } else {
      var desired := change.fields[schema.revision.value].proposed.n;
      StoredRowClimbs(schema, values, NextToken(old(db.ledger), t), desired);
      ok := AdvanceReviewedRevision(db, t, values, desired);
      if ok {
        SameMap(db.rows, old(db.rows)[t := final]);
      }
    }
  }

  /** What the write steps use of a still-anchored change. */
  lemma ReviewedFacts(schema: Schema, rows: Rows, ledger: Ledger, t: Target, change: Change)
    requires StillAnchored(schema, rows, ledger, t, change) && change.operation != Delete
    requires t in rows ==> ValidRow(schema, rows[t])
    ensures ReviewedValues(schema, change).Keys <= schema.columns
    ensures Published(schema, rows, t, change).Some? && ValidRow(schema, Published(schema, rows, t, change).value)
    ensures schema.revision.Some? ==>
              var r := schema.revision.value;
              && r !in ReviewedValues(schema, change)
              && r in change.fields && change.fields[r].proposed.Num?
              && change.baseRevision.Some? && change.fields[r].proposed.n >= change.baseRevision.value + 1
              && RevisionOf(schema, Published(schema, rows, t, change).value) == change.fields[r].proposed.n
              && (t in rows ==> change.baseRevision.value == RevisionOf(schema, rows[t]))
  {}

  /** Write step of an update: one bump, then the loop. Nothing to write but a revision is drift. */
  method UpdateReviewedRow(db: TrackedDb, t: Target, change: Change, ghost base: Rows, ghost ledger: Ledger) returns (ok: bool)
    requires db.Valid() && StillAnchored(db.schemas(t.table), base, ledger, t, change) && change.operation == Update
    requires t in base && ValidRow(db.schemas(t.table), base[t]) && Lookup(db.rows, t) == Some(base[t])
    modifies db
    ensures ok <==> !Unpublishable(db.schemas(t.table), change)
    ensures db.Valid()
    ensures ok ==> db.rows == old(db.rows)[t := Published(db.schemas(t.table), base, t, change).value]
    ensures db.ledger == old(db.ledger)
    ensures ok ==> db.tablesWritten == old(db.tablesWritten)
                                       + if ReviewedValues(db.schemas(t.table), change) == map[] then {} else {t.table}
  {
    hide AnchoredChange, Effective, RevisionOf, RevisionOnly, ReviewedValues, TrackedDb.Valid, UpdateValues;
    var schema := db.schemas(t.table);
    var values := ReviewedValues(schema, change);
    FinalFromValues(schema, base, ledger, t, change);
    ReviewedFacts(schema, base, ledger, t, change);
    NoValuesIsRevisionOnly(schema, base, ledger, t, change);
    ghost var final := Published(schema, base, t, change).value;
    ok := true;
    if values != map[] || schema.revision.Some? {
      UpdateKey(db, t, values);
    }
    if schema.revision.None? {
      NoRevisionPatch(schema, base[t], values, final);
    } else {
      var desired := change.fields[schema.revision.value].proposed.n;
      PatchedRowClimbs(schema, base[t], values, desired);
      ok := AdvanceReviewedRevision(db, t, values, desired);
    }
    if ok {
      SameMap(db.rows, old(db.rows)[t := final]);
    }
  }

  lemma TokenIsUnused(schema: Schema, values: Row, a: int, b: int)
    requires schema.revision.None?
    ensures StoredRow(schema, values, a) == StoredRow(schema, values, b)
  {}

  lemma NoRevisionPatch(schema: Schema, row: Row, values: Row, final: Row)
    requires schema.revision.None?
    ensures row + values + RevisionPatch(schema, final) == row + UpdateValues(schema, row, values)
    ensures row + map[] == row
  {}

  lemma NoValuesIsRevisionOnly(schema: Schema, rows: Rows, ledger: Ledger, t: Target, change: Change)
    requires StillAnchored(schema, rows, ledger, t, change)
    ensures ReviewedValues(schema, change) == map[] <==> RevisionOnly(schema, change)
  {
    var values := ReviewedValues(schema, change);
    if c :| c in change.fields && Some(c) != schema.revision {
      assert c in values;
    }
    if c :| c in values {
      assert c in change.fields && Some(c) != schema.revision;
    }
  }

  lemma PatchedRowClimbs(schema: Schema, row: Row, values: Row, desired: int)
    requires ValidRow(schema, row) && schema.revision.Some?
    requires values.Keys <= schema.columns && schema.revision.value !in values
    ensures var patched := row + UpdateValues(schema, row, values);
            && ValidRow(schema, patched)
            && RevisionOf(schema, patched) == RevisionOf(schema, row) + 1
            && (patched + values)[schema.revision.value := Num(desired)] == row + values + map[schema.revision.value := Num(desired)]
            && patched[schema.revision.value := Num(desired)] == row + values + map[schema.revision.value := Num(desired)]
  {}
}
