/**
 * The draft overlay: one tenant's slice of a canonical table, the sparse row changes a draft
 * keeps beside it, and the effective row the two coalesce to
 * (packages/db/src/draft-select-builder.ts, packages/db/src/draft-mutations.ts).
 */
module DraftOverlay {
  import opened Common

  type Column = string

  /** A cell. `Null` is SQL NULL. */
  datatype Value = Null | Num(n: int) | Text(s: string)

  /** A primary key, already canonicalized. */
  type Key = Value

  /** The cells of a row other than its primary key. */
  type Row = map<Column, Value>

  datatype Schema = Schema(pk: Column, columns: set<Column>, revision: Option<Column>)

  datatype Operation = Insert | Update | Delete

  /** First-touch snapshot of a canonical cell. */
  datatype Anchor = Absent | Present(value: Value)

  datatype Field = Field(original: Anchor, proposed: Value)

  datatype Change = Change(
    operation: Operation,
    baseExists: bool,
    baseRevision: Option<int>,
    fields: map<Column, Field>)

  type Table = map<Key, Row>
  type Changes = map<Key, Change>

  predicate ValidSchema(schema: Schema) {
    && schema.pk !in schema.columns
    && (schema.revision.Some? ==> schema.revision.value in schema.columns)
  }

  predicate ValidTable(schema: Schema, table: Table) {
    forall k :: k in table ==> table[k].Keys == schema.columns
  }

  function Lookup<K, V>(m: map<K, V>, k: K): Option<V> {
    if k in m then Some(m[k]) else None
  }

  /** The value a read returns for a column: the draft's if it holds one, else the base's, else NULL. */
  function EffectiveCell(base: Option<Row>, fields: map<Column, Field>, c: Column): Value {
    if c in fields then fields[c].proposed
    else if base.Some? && c in base.value then base.value[c]
    else Null
  }

  /** One row of the full outer join; `None` when neither side has it or the draft deleted it. */
  function Effective(schema: Schema, base: Option<Row>, change: Option<Change>): Option<Row> {
    match change
    case None => base
    case Some(d) =>
      if d.operation == Delete then None
      else Some(map c | c in schema.columns :: EffectiveCell(base, d.fields, c))
  }

  /** The table a draft read sees. */
  function View(schema: Schema, base: Table, changes: Changes): Table {
    map k | k in base.Keys + changes.Keys && Effective(schema, Lookup(base, k), Lookup(changes, k)).Some?
      :: Effective(schema, Lookup(base, k), Lookup(changes, k)).value
  }
}
