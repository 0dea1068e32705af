/**
 * Tracked writes to the canonical tables (packages/db/src/tracker-factory.ts `InsertBuilder`,
 * packages/db/src/select-builder.ts `update` and `delete`). Statement by statement, every target's
 * row and ledger entry move as one row operation says, so over any run its identity is the one
 * the ledger model reaches.
 */
module CanonicalWrites {
  import opened Common
  import opened DraftOverlay
  import opened DraftWrites
  import opened PublishOrder
  import R = RowRevisions

  type Rows = map<Target, Row>

  type Ledger = map<Target, int>

  /** A filter list, as a predicate on rows. */
  type Where = (Key, Row) -> bool

  datatype Item = Item(key: Key, values: Row)

  /** The row an insert stores: missing columns are NULL, the revision is the allocated token. */
  function StoredRow(schema: Schema, values: Row, token: int): Row {
    map c | c in schema.columns ::
      if Some(c) == schema.revision then Num(token) else if c in values then values[c] else Null
  }

  function NextToken(ledger: Ledger, t: Target): int {
    if t in ledger then ledger[t] + 1 else 1
  }

  /** Keys are distinct and none is in the table. */
  predicate CanInsert(rows: Rows, table: string, items: seq<Item>) {
    && DistinctItems(items)
    && (forall i :: 0 <= i < |items| ==> Target(table, items[i].key) !in rows)
  }

  /** No two items of a batch share a key. */
  predicate DistinctItems(items: seq<Item>) {
    forall i, j :: 0 <= i < j < |items| ==> items[i].key != items[j].key
  }

  /** The rows of one insert statement, by target. */
  function Keyed(table: string, items: seq<Item>, stored: seq<Row>): Rows
    requires |stored| == |items| && DistinctItems(items)
  {
    map i | 0 <= i < |items| :: Target(table, items[i].key) := stored[i]
  }

  lemma KeyedRow(table: string, items: seq<Item>, stored: seq<Row>)
    requires |stored| == |items| && DistinctItems(items)
    ensures forall i :: 0 <= i < |items| ==> Lookup(Keyed(table, items, stored), Target(table, items[i].key)) == Some(stored[i])
    ensures forall t :: (forall i :: 0 <= i < |items| ==> t != Target(table, items[i].key)) ==> t !in Keyed(table, items, stored)
  {
    forall i | 0 <= i < |items|
      ensures Lookup(Keyed(table, items, stored), Target(table, items[i].key)) == Some(stored[i])
    {
      assert Target(table, items[i].key) in Keyed(table, items, stored);
    }
  }

  predicate Hit(rows: Rows, table: string, where: Where, t: Target) {
    t in rows && t.table == table && where(t.key, rows[t])
  }

  // ---------------------------------------------------------------------------------------
  // One row under tracked writes
  // ---------------------------------------------------------------------------------------

  /** A canonical row with its ledger entry, and what a tracked statement does to them. */
  datatype Tracked = Tracked(row: Option<Row>, ledger: Option<int>)

  datatype RowOp = InsertRow(values: Row) | UpdateRow(patch: Row) | DeleteRow | LockRow

  function KindOf(op: RowOp): R.Op {
    match op
    case InsertRow(_) => R.Insert
    case UpdateRow(_) => R.Update
    case DeleteRow => R.Delete
    case LockRow => R.Lock
  }

  function Kinds(ops: seq<RowOp>): seq<R.Op> {
    seq(|ops|, i requires 0 <= i < |ops| => KindOf(ops[i]))
  }

  function IdentityIn(schema: Schema, s: Tracked): R.Identity {
    R.Identity(if s.row.Some? then Some(RevisionOf(schema, s.row.value)) else None, s.ledger)
  }

  /** Tables without a revision column have no ledger entries. */
  function Apply(schema: Schema, s: Tracked, op: RowOp): Tracked {
    match op
    case InsertRow(values) =>
      if s.row.Some? then s
      else
        var token := if s.ledger.Some? then s.ledger.value + 1 else 1;
        Tracked(Some(StoredRow(schema, values, token)), if schema.revision.Some? then Some(token) else s.ledger)
    case UpdateRow(patch) =>
      if s.row.None? then s else s.(row := Some(s.row.value + UpdateValues(schema, s.row.value, patch)))
    case DeleteRow =>
      if s.row.None? then s
      else Tracked(None, if schema.revision.Some?
                         then Some(R.Max(if s.ledger.Some? then s.ledger.value else 0, RevisionOf(schema, s.row.value)))
                         else s.ledger)
    case LockRow => s.(ledger := Reserved(schema, s.ledger))
  }

  function ApplyAll(schema: Schema, s: Tracked, ops: seq<RowOp>): Tracked {
    if ops == [] then s else Apply(schema, ApplyAll(schema, s, ops[..|ops| - 1]), ops[|ops| - 1])
  }

  /** A typed row and, where revisions are kept, a valid identity. */
  ghost predicate Typed(schema: Schema, s: Tracked) {
    && ValidSchema(schema)
    && (s.row.Some? ==> ValidRow(schema, s.row.value))
    && (schema.revision.Some? ==> R.Valid(IdentityIn(schema, s)))
  }

  ghost predicate TypedRowOp(schema: Schema, op: RowOp) {
    op.UpdateRow? ==> op.patch.Keys <= schema.columns && (schema.revision.Some? ==> schema.revision.value !in op.patch)
  }

  /** Rows and ledger move as the identity model says, and stay typed. */
  lemma ApplyMovesIdentity(schema: Schema, s: Tracked, op: RowOp)
    requires Typed(schema, s) && TypedRowOp(schema, op)
    ensures Typed(schema, Apply(schema, s, op))
    ensures schema.revision.Some? ==> IdentityIn(schema, Apply(schema, s, op)) == R.Next(IdentityIn(schema, s), KindOf(op))
  {
    if op.UpdateRow? && s.row.Some? {
      assert (s.row.value + UpdateValues(schema, s.row.value, op.patch)).Keys == schema.columns;
    }
    if schema.revision.Some? {
      R.WritesAdvance(IdentityIn(schema, s), KindOf(op));
    }
  }

  lemma {:induction false} RunMovesIdentity(schema: Schema, s: Tracked, ops: seq<RowOp>)
    requires Typed(schema, s) && forall i :: 0 <= i < |ops| ==> TypedRowOp(schema, ops[i])
    ensures Typed(schema, ApplyAll(schema, s, ops))
    ensures schema.revision.Some? ==> IdentityIn(schema, ApplyAll(schema, s, ops)) == R.Run(IdentityIn(schema, s), Kinds(ops))
  {
    if ops != [] {
      var init, last := ops[..|ops| - 1], ops[|ops| - 1];
      assert Kinds(ops) == Kinds(init) + [KindOf(last)];
      RunMovesIdentity(schema, s, init);
      ApplyMovesIdentity(schema, ApplyAll(schema, s, init), last);
    }
  }

  // ---------------------------------------------------------------------------------------
  // Statements
  // ---------------------------------------------------------------------------------------

  datatype TrackedStatement =
    | InsertInto(table: string, items: seq<Item>)
    | UpdateWhere(table: string, where: Where, patch: Row)
    | DeleteWhere(table: string, where: Where)
    | LockIdentity(target: Target)

  /** The values a batch has for a key. */
  function ValuesFor(items: seq<Item>, key: Key): Option<Row> {
    if items == [] then None
    else if items[|items| - 1].key == key then Some(items[|items| - 1].values)
    else ValuesFor(items[..|items| - 1], key)
  }

  lemma {:induction false} ValuesForItem(items: seq<Item>, key: Key)
    ensures ValuesFor(items, key).None? ==> forall i :: 0 <= i < |items| ==> items[i].key != key
    ensures ValuesFor(items, key).Some? ==> exists i :: 0 <= i < |items| && items[i] == Item(key, ValuesFor(items, key).value)
    ensures DistinctItems(items) ==> forall i :: 0 <= i < |items| && items[i].key == key ==> ValuesFor(items, key) == Some(items[i].values)
  {
    if items != [] {
      var init := items[..|items| - 1];
      ValuesForItem(init, key);
      assert forall i :: 0 <= i < |init| ==> init[i] == items[i];
      if DistinctItems(items) {
        assert DistinctItems(init);
      }
    }
  }

  /** What a statement does to one target; `LockIdentity` is what another draft's write does. */
  ghost function TrackedOp(rows: Rows, s: TrackedStatement, t: Target): Option<RowOp> {
    match s
    case InsertInto(table, items) =>
      if t.table == table && CanInsert(rows, table, items) && ValuesFor(items, t.key).Some?
      then Some(InsertRow(ValuesFor(items, t.key).value)) else None
    case UpdateWhere(table, where, patch) => if patch != map[] && Hit(rows, table, where, t) then Some(UpdateRow(patch)) else None
    case DeleteWhere(table, where) => if Hit(rows, table, where, t) then Some(DeleteRow) else None
    case LockIdentity(target) => if t == target then Some(LockRow) else None
  }

  /** The tables a statement reports as written: those it wrote or could have written, never an empty patch or a refused batch. */
  function StatementTags(rows: Rows, s: TrackedStatement): set<string> {
    match s
    case InsertInto(table, items) => if CanInsert(rows, table, items) then {table} else {}
    case UpdateWhere(table, where, patch) => if patch == map[] then {} else {table}
    case DeleteWhere(table, where) => {table}
    case LockIdentity(_) => {}
  }

  ghost predicate TypedStatement(schemas: string -> Schema, s: TrackedStatement) {
    s.UpdateWhere? ==> TypedRowOp(schemas(s.table), UpdateRow(s.patch))
  }

  function Moved(schema: Schema, s: Tracked, op: Option<RowOp>): Tracked {
    if op.None? then s else Apply(schema, s, op.value)
  }

  lemma ApplyAllNext(schema: Schema, s: Tracked, ops: seq<RowOp>, op: Option<RowOp>)
    ensures ApplyAll(schema, s, ops + if op.Some? then [op.value] else []) == Moved(schema, ApplyAll(schema, s, ops), op)
  {
    if op.Some? {
      assert (ops + [op.value])[..|ops|] == ops;
    } else {
      assert ops + [] == ops;
    }
  }

  lemma StatementOpIsTyped(schemas: string -> Schema, rows: Rows, s: TrackedStatement, t: Target)
    requires TypedStatement(schemas, s)
    ensures var op := TrackedOp(rows, s, t);
            op.Some? ==> TypedRowOp(schemas(t.table), op.value)
  {}

  function StateOf(rows: Rows, ledger: Ledger, t: Target): Tracked {
    Tracked(Lookup(rows, t), Lookup(ledger, t))
  }

  function IdentityOf(schema: Schema, rows: Rows, ledger: Ledger, t: Target): R.Identity {
    IdentityIn(schema, StateOf(rows, ledger, t))
  }

  datatype Tables = Tables(rows: Rows, ledger: Ledger)

  /** The operations a run of statements performs on one target; `states` are the tables before each. */
  ghost function OpsOn(states: seq<Tables>, statements: seq<TrackedStatement>, t: Target): seq<RowOp>
    requires |states| >= |statements|
    decreases |statements|
  {
    if statements == [] then []
    else
      var n := |statements| - 1;
      var op := TrackedOp(states[n].rows, statements[n], t);
      OpsOn(states[..n], statements[..n], t) + if op.Some? then [op.value] else []
  }

  lemma {:induction false} OpsOnTyped(schemas: string -> Schema, states: seq<Tables>, statements: seq<TrackedStatement>, t: Target)
    requires |states| >= |statements| && forall i :: 0 <= i < |statements| ==> TypedStatement(schemas, statements[i])
    ensures forall i :: 0 <= i < |OpsOn(states, statements, t)| ==> TypedRowOp(schemas(t.table), OpsOn(states, statements, t)[i])
    decreases |statements|
  {
    hide TrackedOp, TypedRowOp;
    if statements != [] {
      var n := |statements| - 1;
      OpsOnTyped(schemas, states[..n], statements[..n], t);
      StatementOpIsTyped(schemas, states[n].rows, statements[n], t);
    }
  }

  lemma OpsOnNext(earlier: seq<Tables>, states: seq<Tables>, statements: seq<TrackedStatement>, i: nat, t: Target)
    requires i < |statements| && |earlier| == i + 1 && |states| == i + 2 && states[..i + 1] == earlier
    ensures var op := TrackedOp(earlier[i].rows, statements[i], t);
            OpsOn(states, statements[..i + 1], t) == OpsOn(earlier, statements[..i], t) + if op.Some? then [op.value] else []
  {
    hide TrackedOp;
    assert statements[..i + 1][..i] == statements[..i];
    assert states[..i] == earlier[..i];
    OpsOnPrefix(earlier, statements[..i], t);
  }

  /** Only the tables before each statement matter. */
  lemma OpsOnPrefix(states: seq<Tables>, statements: seq<TrackedStatement>, t: Target)
    requires |states| >= |statements|
    ensures OpsOn(states, statements, t) == OpsOn(states[..|statements|], statements, t)
  {
    hide TrackedOp;
    if statements != [] {
      var n := |statements| - 1;
      assert states[..n + 1][..n] == states[..n];
    }
  }

  /** The row and the ledger entry a batch leaves at one target. */
  lemma InsertedAt(schema: Schema, table: string, items: seq<Item>, stored: seq<Row>, rows: Rows, ledger: Ledger,
                   rows': Rows, ledger': Ledger, t: Target)
    requires CanInsert(rows, table, items) && |stored| == |items| && rows' == rows + Keyed(table, items, stored)
    requires forall i :: 0 <= i < |items| ==>
               var u := Target(table, items[i].key);
               && stored[i] == StoredRow(schema, items[i].values, NextToken(ledger, u))
               && Lookup(ledger', u) == if schema.revision.Some? then Some(NextToken(ledger, u)) else Lookup(ledger, u)
    requires t.table != table || ValuesFor(items, t.key).None? ==> Lookup(ledger', t) == Lookup(ledger, t)
    ensures StateOf(rows', ledger', t)
         == if t.table == table && ValuesFor(items, t.key).Some?
            then Apply(schema, StateOf(rows, ledger, t), InsertRow(ValuesFor(items, t.key).value)) else StateOf(rows, ledger, t)
  {
    hide StoredRow, Keyed;
    ValuesForItem(items, t.key);
    KeyedRow(table, items, stored);
    if t.table == table && ValuesFor(items, t.key).Some? {
      var i :| 0 <= i < |items| && items[i] == Item(t.key, ValuesFor(items, t.key).value);
      assert Target(table, items[i].key) == t && t !in rows;
    }
  }

  class TrackedDb {
    const schemas: string -> Schema
    var rows: Rows
    var ledger: Ledger
    var tablesWritten: set<string>

    /** Rows are typed, and on revisioned tables every identity is valid. */
    ghost predicate Valid()
      reads this
    {
      && (forall table :: ValidSchema(schemas(table)))
      && (forall t :: t in rows ==> ValidRow(schemas(t.table), rows[t]))
      && (forall t: Target :: schemas(t.table).revision.Some? ==> R.Valid(IdentityAt(t)))
    }

    function IdentityAt(t: Target): R.Identity
      reads this
    {
      IdentityOf(schemas(t.table), rows, ledger, t)
    }

    function At(t: Target): Tracked
      reads this
    {
      StateOf(rows, ledger, t)
    }

    lemma ValidIff()
      ensures Valid() <==> forall t: Target :: Typed(schemas(t.table), At(t))
    {
      hide ValidSchema, ValidRow, R.Valid;
      if forall t: Target :: Typed(schemas(t.table), At(t)) {
        forall table
          ensures ValidSchema(schemas(table))
        {
          var t := Target(table, Null);
          assert Typed(schemas(t.table), At(t));
        }
        forall t: Target
          ensures t in rows ==> ValidRow(schemas(t.table), rows[t])
          ensures schemas(t.table).revision.Some? ==> R.Valid(IdentityAt(t))
        {
          assert Typed(schemas(t.table), At(t));
          assert IdentityAt(t) == IdentityIn(schemas(t.table), At(t));
        }
      }
      if Valid() {
        forall t: Target
          ensures Typed(schemas(t.table), At(t))
        {
          assert IdentityAt(t) == IdentityIn(schemas(t.table), At(t));
        }
      }
    }

    method LockRowRevision(t: Target)
      modifies this`ledger
      ensures ledger == old(ledger)[t := if t in old(ledger) then old(ledger)[t] else 0]
      ensures IdentityAt(t) == R.Reserve(old(IdentityAt(t)))
    {
      ledger := ledger[t := if t in ledger then ledger[t] else 0];
    }

    method AllocateRowRevision(t: Target) returns (token: int)
      modifies this`ledger
      ensures token == NextToken(old(ledger), t)
      ensures ledger == old(ledger)[t := token]
      ensures IdentityAt(t) == R.Allocate(old(IdentityAt(t)))
    {
      token := if t in ledger then ledger[t] + 1 else 1;
      ledger := ledger[t := token];
    }

    method PreserveRowRevision(t: Target, revision: int)
      modifies this`ledger
      ensures ledger == old(ledger)[t := if t in old(ledger) then R.Max(old(ledger)[t], revision) else revision]
      ensures IdentityAt(t) == R.Preserve(old(IdentityAt(t)), revision)
    {
      ledger := ledger[t := if t in ledger then R.Max(ledger[t], revision) else revision];
    }

    /** One statement for the whole batch after every token is allocated; a duplicate key rolls it back. */
    method Insert(table: string, items: seq<Item>) returns (ok: bool)
      requires Valid()
      modifies this
      ensures Valid()
      ensures ok <==> CanInsert(old(rows), table, items)
      ensures forall t :: At(t) == Moved(schemas(t.table), old(At(t)), TrackedOp(old(rows), InsertInto(table, items), t))
      ensures tablesWritten == old(tablesWritten) + if ok then {table} else {}
    {
      hide StoredRow, NextToken, Keyed, DistinctItems, Valid;
      ValidIff();
      var ledgerBefore := ledger;
      var withRevisions := AllocateAll(table, items);
      if !CanInsert(rows, table, items) {
        ledger := ledgerBefore;
        ok := false;
      } else {
        var inserted := Keyed(table, items, withRevisions);
        KeyedRow(table, items, withRevisions);
        rows := rows + inserted;
        tablesWritten := tablesWritten + {table};
        ok := true;
        forall t
          ensures At(t) == Moved(schemas(t.table), old(At(t)), TrackedOp(old(rows), InsertInto(table, items), t))
        {
          ValuesForItem(items, t.key);
          InsertedAt(schemas(table), table, items, withRevisions, old(rows), old(ledger), rows, ledger, t);
        }
      }
      StillValid(old(rows), old(ledger), InsertInto(table, items));
    }

    /** A statement that moves every target as its operation says keeps the tables valid. */
    lemma StillValid(rows': Rows, ledger': Ledger, s: TrackedStatement)
      requires forall t: Target :: Typed(schemas(t.table), StateOf(rows', ledger', t))
      requires TypedStatement(schemas, s)
      requires forall t :: At(t) == Moved(schemas(t.table), StateOf(rows', ledger', t), TrackedOp(rows', s, t))
      ensures Valid()
    {
      hide Typed, Apply, TrackedOp, TypedRowOp, TypedStatement, Valid;
      forall t: Target
        ensures Typed(schemas(t.table), At(t))
      {
        StatementOpIsTyped(schemas, rows', s, t);
        var op := TrackedOp(rows', s, t);
        if op.Some? {
          ApplyMovesIdentity(schemas(t.table), StateOf(rows', ledger', t), op.value);
        }
      }
      ValidIff();
    }

    /** The rows to insert, each with the next token of its identity. */
    method AllocateAll(table: string, items: seq<Item>) returns (withRevisions: seq<Row>)
      modifies this`ledger
      ensures |withRevisions| == |items|
      ensures CanInsert(rows, table, items) ==> forall i :: 0 <= i < |items| ==>
                var t := Target(table, items[i].key);
                && withRevisions[i] == StoredRow(schemas(table), items[i].values, NextToken(old(ledger), t))
                && Lookup(ledger, t) == if schemas(table).revision.Some? then Some(NextToken(old(ledger), t)) else Lookup(old(ledger), t)
      ensures forall t :: (forall i :: 0 <= i < |items| ==> t != Target(table, items[i].key)) ==> Lookup(ledger, t) == Lookup(old(ledger), t)
    {
      withRevisions := [];
      for i := 0 to |items|
        invariant |withRevisions| == i
        invariant CanInsert(rows, table, items) ==> forall j :: 0 <= j < i ==>
                    var t := Target(table, items[j].key);
                    && withRevisions[j] == StoredRow(schemas(table), items[j].values, NextToken(old(ledger), t))
                    && Lookup(ledger, t) == if schemas(table).revision.Some? then Some(NextToken(old(ledger), t)) else Lookup(old(ledger), t)
        invariant forall t :: (forall j :: 0 <= j < i ==> t != Target(table, items[j].key)) ==> Lookup(ledger, t) == Lookup(old(ledger), t)
      {
        var t := Target(table, items[i].key);
        var token := NextToken(ledger, t);
        if schemas(table).revision.Some? {
          token := AllocateRowRevision(t);
        }
        withRevisions := withRevisions + [StoredRow(schemas(table), items[i].values, token)];
      }
    }

    /** An empty patch writes nothing; any other patches and bumps every matching row. */
    method Update(table: string, where: Where, patch: Row)
      requires Valid() && TypedRowOp(schemas(table), UpdateRow(patch))
      modifies this
      ensures Valid()
      ensures forall t :: At(t) == Moved(schemas(t.table), old(At(t)), TrackedOp(old(rows), UpdateWhere(table, where, patch), t))
      ensures tablesWritten == old(tablesWritten) + if patch == map[] then {} else {table}
    {
      hide Valid, UpdateValues;
      ValidIff();
      if patch != map[] {
        rows := map t | t in rows ::
          if Hit(rows, table, where, t) then rows[t] + UpdateValues(schemas(table), rows[t], patch) else rows[t];
        tablesWritten := tablesWritten + {table};
      }
      StillValid(old(rows), old(ledger), UpdateWhere(table, where, patch));
    }

    /** Lock every candidate, preserve the token of every locked row, then delete. */
    method Delete(table: string, where: Where)
      requires Valid()
      modifies this
      ensures Valid()
      ensures forall t :: At(t) == Moved(schemas(t.table), old(At(t)), TrackedOp(old(rows), DeleteWhere(table, where), t))
      ensures tablesWritten == old(tablesWritten) + {table}
    {
      hide Valid, RevisionOf;
      ValidIff();
      var hits := set t | t in rows && Hit(rows, table, where, t);
      if schemas(table).revision.Some? {
        PreserveHits(table, where, hits);
      }
      rows := rows - hits;
      tablesWritten := tablesWritten + {table};
      StillValid(old(rows), old(ledger), DeleteWhere(table, where));
    }

    /** The candidates are locked, matched again, and their last tokens kept. */
    method PreserveHits(table: string, where: Where, hits: set<Target>)
      requires forall t :: t in hits <==> t in rows && Hit(rows, table, where, t)
      modifies this`ledger
      ensures forall t :: Lookup(ledger, t) ==
                if t in hits then Some(R.Max(if t in old(ledger) then old(ledger)[t] else 0, RevisionOf(schemas(table), rows[t])))
                else Lookup(old(ledger), t)
    {
      hide Hit;
      LockAll(hits);
      var locked := set t | t in rows && Hit(rows, table, where, t);
      forall t | t in locked
        ensures t in ledger && t in hits
      {
        assert Lookup(ledger, t).Some?;
      }
      assert locked == hits;
      PreserveAll(table, locked);
    }

    /** Another draft's write reserves an identity; tables without a revision column have none. */
    method Lock(t: Target)
      requires Valid()
      modifies this
      ensures Valid()
      ensures forall u :: At(u) == Moved(schemas(u.table), old(At(u)), TrackedOp(old(rows), LockIdentity(t), u))
      ensures rows == old(rows) && tablesWritten == old(tablesWritten)
    {
      hide Valid;
      ValidIff();
      if schemas(t.table).revision.Some? {
        LockRowRevision(t);
      }
      StillValid(old(rows), old(ledger), LockIdentity(t));
    }

    method Execute(s: TrackedStatement)
      requires Valid() && TypedStatement(schemas, s)
      modifies this
      ensures Valid()
      ensures forall t :: At(t) == Moved(schemas(t.table), old(At(t)), TrackedOp(old(rows), s, t))
      ensures tablesWritten == old(tablesWritten) + StatementTags(old(rows), s)
    {
      hide Valid, TrackedOp, Moved, CanInsert;
      match s
      case InsertInto(table, items) => var ok := Insert(table, items);
      case UpdateWhere(table, where, patch) => Update(table, where, patch);
      case DeleteWhere(table, where) => Delete(table, where);
      case LockIdentity(target) => Lock(target);
    }

    /**
     * Any run of statements: at every target the row and the ledger entry are those of the
     * operations on it, and its identity is the one the ledger model reaches.
     */
    method Run(statements: seq<TrackedStatement>) returns (ghost states: seq<Tables>)
      requires Valid() && forall i :: 0 <= i < |statements| ==> TypedStatement(schemas, statements[i])
      modifies this
      ensures Valid()
      ensures |states| == |statements| + 1 && states[0] == old(Tables(rows, ledger)) && states[|statements|] == Tables(rows, ledger)
      ensures forall t :: At(t) == ApplyAll(schemas(t.table), old(At(t)), OpsOn(states, statements, t))
      ensures forall t: Target :: schemas(t.table).revision.Some? ==> IdentityAt(t) == R.Run(old(IdentityAt(t)), Kinds(OpsOn(states, statements, t)))
    {
      hide Valid, TrackedOp, Apply, TypedStatement, Typed;
      ValidIff();
      states := [Tables(rows, ledger)];
      for i := 0 to |statements|
        invariant Valid()
        invariant |states| == i + 1 && states[0] == old(Tables(rows, ledger)) && states[i] == Tables(rows, ledger)
        invariant forall t :: At(t) == ApplyAll(schemas(t.table), old(At(t)), OpsOn(states, statements[..i], t))
      {
        ghost var before, earlier := Tables(rows, ledger), states;
        Execute(statements[i]);
        states := states + [Tables(rows, ledger)];
        forall t
          ensures At(t) == ApplyAll(schemas(t.table), old(At(t)), OpsOn(states, statements[..i + 1], t))
        {
          assert At(t) == Moved(schemas(t.table), StateOf(before.rows, before.ledger, t), TrackedOp(before.rows, statements[i], t));
          OpsOnNext(earlier, states, statements, i, t);
          ApplyAllNext(schemas(t.table), old(At(t)), OpsOn(earlier, statements[..i], t), TrackedOp(before.rows, statements[i], t));
        }
      }
      assert statements[..|statements|] == statements;
      forall t: Target
        ensures schemas(t.table).revision.Some? ==> IdentityAt(t) == R.Run(old(IdentityAt(t)), Kinds(OpsOn(states, statements, t)))
      {
        OpsOnTyped(schemas, states, statements, t);
        RunMovesIdentity(schemas(t.table), old(At(t)), OpsOn(states, statements, t));
      }
    }

    method LockAll(targets: set<Target>)
      modifies this`ledger
      ensures forall t :: Lookup(ledger, t) ==
                if t in targets then Some(if t in old(ledger) then old(ledger)[t] else 0) else Lookup(old(ledger), t)
    {
      var pending := targets;
      while pending != {}
        invariant pending <= targets
        invariant forall t :: Lookup(ledger, t) ==
                    if t in targets - pending then Some(if t in old(ledger) then old(ledger)[t] else 0) else Lookup(old(ledger), t)
      {
        var t :| t in pending;
        assert Lookup(ledger, t) == Lookup(old(ledger), t);
        LockRowRevision(t);
        pending := pending - {t};
      }
    }

    method PreserveAll(table: string, targets: set<Target>)
      requires forall t :: t in targets ==> t in rows && t in ledger
      modifies this`ledger
      ensures forall t :: Lookup(ledger, t) ==
                if t in targets then Some(R.Max(old(ledger)[t], RevisionOf(schemas(table), rows[t]))) else Lookup(old(ledger), t)
    {
      var pending := targets;
      while pending != {}
        invariant pending <= targets
        invariant forall t :: Lookup(ledger, t) ==
                    if t in targets - pending then Some(R.Max(old(ledger)[t], RevisionOf(schemas(table), rows[t]))) else Lookup(old(ledger), t)
      {
        var t :| t in pending;
        assert Lookup(ledger, t) == Lookup(old(ledger), t);
        PreserveRowRevision(t, RevisionOf(schemas(table), rows[t]));
        pending := pending - {t};
      }
    }
  }
}
